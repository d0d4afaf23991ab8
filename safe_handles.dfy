/** The owned native handles (SafeHandles.cs) and the foreign calls that create them.
    PcapHandle and PcapDumperHandle differ only in their release call, so both are
    one class with a `kind`. Both derive from SafeHandleZeroOrMinusOneIsInvalid and
    own their resource: raw values 0 and -1 are invalid, and closing a valid handle
    releases it exactly once. A Pcap handle also carries the native state behind it:
    the data-link code, the text pcap_geterr reports, and the read session. */
module SafeHandles {
  import opened Exceptions
  import opened NativeMethods

  datatype HandleKind = Pcap | PcapDumper

  /** The foreign call that releases a handle of the given kind */
  function ReleaseCall(kind: HandleKind, raw: int): (c: Call)
  {
    match kind
    case Pcap => PcapClose(raw)
    case PcapDumper => PcapDumpClose(raw)
  }

  /** What a native open call produces: the raw handle value, the error-buffer text,
      and (for a capture session) its data-link code, error text and read script. */
  datatype Opening = Opening(raw: int, errorBuffer: string, datalink: int, lastError: string, session: Session)

  class SafeHandle {
    const kind: HandleKind
    const raw: int
    const lib: Wpcap
    var closed: bool

    // The native side of a Pcap handle
    const datalink: int
    const lastError: string
    var session: Session

    predicate IsInvalid() {
      raw == 0 || raw == -1
    }

    constructor (kind: HandleKind, raw: int, lib: Wpcap, datalink: int, lastError: string, session: Session)
      ensures this.kind == kind && this.raw == raw && this.lib == lib
      ensures this.datalink == datalink && this.lastError == lastError && this.session == session
      ensures !closed
    {
      this.kind, this.raw, this.lib := kind, raw, lib;
      this.datalink, this.lastError, this.session := datalink, lastError, session;
      closed := false;
    }

    /** Releases the native resource and reports success. */
    method ReleaseHandle() returns (released: bool)
      requires !IsInvalid()
      modifies lib
      ensures released
      ensures lib.calls == old(lib.calls) + [ReleaseCall(kind, raw)]
    {
      lib.Invoke(ReleaseCall(kind, raw));
      released := true;
    }

    /** SafeHandle.Close (and Dispose): marks the handle closed; the first close of a
        valid handle releases it. Never raises, and a second call does nothing. */
    method Close()
      modifies this`closed, lib
      ensures closed
      ensures lib.calls == old(lib.calls) + (if old(closed) || IsInvalid() then [] else [ReleaseCall(kind, raw)])
    {
      if !closed {
        closed := true;
        if !IsInvalid() {
          var _ := ReleaseHandle();
        }
      }
    }

    /** pcap_datalink */
    method Datalink() returns (code: int)
      requires kind == Pcap && !closed
      modifies lib
      ensures code == datalink
      ensures lib.calls == old(lib.calls) + [PcapDatalink(raw)]
    {
      lib.Invoke(PcapDatalink(raw));
      code := datalink;
    }

    /** PcapHandle.ThrowLastError: the error raised always carries the text the
        engine reports now, through pcap_geterr. */
    method ThrowLastError() returns (e: Error)
      requires kind == Pcap && !closed
      modifies lib
      ensures e == CaptureError(lastError)
      ensures lib.calls == old(lib.calls) + [PcapGetErr(raw)]
    {
      lib.Invoke(PcapGetErr(raw));
      e := CaptureError(lastError);
    }

    /** pcap_next_ex */
    method NextEx() returns (result: NextResult)
      requires kind == Pcap && !closed
      modifies this`session, lib
      ensures (result, session) == NativeMethods.NextEx(old(session))
      ensures lib.calls == old(lib.calls) + [PcapNextEx(raw)]
    {
      lib.Invoke(PcapNextEx(raw));
      result, session := NativeMethods.NextEx(session).0, NativeMethods.NextEx(session).1;
    }

    /** pcap_breakloop: the next pcap_next_ex returns -2. */
    method BreakLoop()
      requires kind == Pcap && !closed
      modifies this`session, lib
      ensures session == old(session).(breakRequested := true)
      ensures lib.calls == old(lib.calls) + [PcapBreakLoop(raw)]
    {
      lib.Invoke(PcapBreakLoop(raw));
      session := session.(breakRequested := true);
    }
  }

  /** pcap_open_live: returns a new handle, valid or not, and the error-buffer text. */
  method OpenLive(lib: Wpcap, device: string, snapshotLength: int, promiscuous: int, timeout: int, opening: Opening)
    returns (h: SafeHandle, errorBuffer: string)
    modifies lib
    ensures fresh(h) && h.kind == Pcap && h.raw == opening.raw && h.lib == lib && !h.closed
    ensures h.datalink == opening.datalink && h.lastError == opening.lastError && h.session == opening.session
    ensures errorBuffer == opening.errorBuffer
    ensures lib.calls == old(lib.calls) + [PcapOpenLive(device, snapshotLength, promiscuous, timeout)]
  {
    lib.Invoke(PcapOpenLive(device, snapshotLength, promiscuous, timeout));
    h := new SafeHandle(Pcap, opening.raw, lib, opening.datalink, opening.lastError, opening.session);
    errorBuffer := opening.errorBuffer;
  }

  /** pcap_open_offline */
  method OpenOffline(lib: Wpcap, fileName: string, opening: Opening) returns (h: SafeHandle, errorBuffer: string)
    modifies lib
    ensures fresh(h) && h.kind == Pcap && h.raw == opening.raw && h.lib == lib && !h.closed
    ensures h.datalink == opening.datalink && h.lastError == opening.lastError && h.session == opening.session
    ensures errorBuffer == opening.errorBuffer
    ensures lib.calls == old(lib.calls) + [PcapOpenOffline(fileName)]
  {
    lib.Invoke(PcapOpenOffline(fileName));
    h := new SafeHandle(Pcap, opening.raw, lib, opening.datalink, opening.lastError, opening.session);
    errorBuffer := opening.errorBuffer;
  }

  /** pcap_dump_open on an open capture handle: returns a new dumper handle. */
  method DumpOpen(source: SafeHandle, fileName: string, dumperRaw: int) returns (h: SafeHandle)
    requires source.kind == Pcap && !source.closed
    modifies source.lib
    ensures fresh(h) && h.kind == PcapDumper && h.raw == dumperRaw && h.lib == source.lib && !h.closed
    ensures source.lib.calls == old(source.lib.calls) + [PcapDumpOpen(source.raw, fileName)]
  {
    source.lib.Invoke(PcapDumpOpen(source.raw, fileName));
    h := new SafeHandle(PcapDumper, dumperRaw, source.lib, 0, "", Session(false, []));
  }
}
