/** The writer guard layer (PacketWriter.cs). PacketWriter<T> checks that its handle
    is open, then that the argument is not null, and only then runs the core
    operation its subclass supplies. The subclasses (a live writer over a capture
    handle, a dump-file writer over a dumper handle) are not part of this model:
    each core operation is recorded in `coreCalls`, and whether it raises is
    supplied by the caller. */
module PacketWriters {
  import opened Exceptions
  import opened NativeMethods
  import opened ArgumentGuards
  import opened Packets
  import opened SafeHandles

  const WriterName := "PacketWriter"

  /** Which subclass wraps the handle */
  datatype WriterKind = LiveWriter | DumpFileWriter

  /** A run of one of the subclass's core operations */
  datatype CoreCall = WriteCore(data: seq<byte>) | WritePacketCore(packet: Packet) | FlushCore

  class PacketWriter {
    const handle: SafeHandle
    const writerKind: WriterKind
    var coreCalls: seq<CoreCall>

    constructor (writerKind: WriterKind, h: SafeHandle)
      requires writerKind == LiveWriter <==> h.kind == Pcap
      ensures this.writerKind == writerKind && handle == h && coreCalls == []
    {
      this.writerKind := writerKind;
      handle := h;
      coreCalls := [];
    }

    /** Write: disposed, then null, then WriteCore exactly once with the same buffer. */
    method Write(data: Option<seq<byte>>, core: Outcome) returns (r: Outcome)
      modifies this`coreCalls
      ensures handle.closed ==> r == Fail(ObjectDisposed(WriterName)) && coreCalls == old(coreCalls)
      ensures !handle.closed && data.None? ==> r == Fail(ArgumentNull("data")) && coreCalls == old(coreCalls)
      ensures !handle.closed && data.Some? ==> r == core && coreCalls == old(coreCalls) + [WriteCore(data.value)]
    {
      r := ThrowIfDisposed(handle.closed, WriterName);
      if r.Fail? { return; }
      r := ThrowIfNull(data, "data");
      if r.Fail? { return; }
      coreCalls := coreCalls + [WriteCore(data.value)];
      r := core;
    }

    /** WritePacket: disposed, then null, then WritePacketCore exactly once. */
    method WritePacket(packet: Option<Packet>, core: Outcome) returns (r: Outcome)
      modifies this`coreCalls
      ensures handle.closed ==> r == Fail(ObjectDisposed(WriterName)) && coreCalls == old(coreCalls)
      ensures !handle.closed && packet.None? ==> r == Fail(ArgumentNull("packet")) && coreCalls == old(coreCalls)
      ensures !handle.closed && packet.Some? ==> r == core && coreCalls == old(coreCalls) + [WritePacketCore(packet.value)]
    {
      r := ThrowIfDisposed(handle.closed, WriterName);
      if r.Fail? { return; }
      r := ThrowIfNull(packet, "packet");
      if r.Fail? { return; }
      coreCalls := coreCalls + [WritePacketCore(packet.value)];
      r := core;
    }

    /** Flush: disposed, then FlushCore. */
    method Flush(core: Outcome) returns (r: Outcome)
      modifies this`coreCalls
      ensures handle.closed ==> r == Fail(ObjectDisposed(WriterName)) && coreCalls == old(coreCalls)
      ensures !handle.closed ==> r == core && coreCalls == old(coreCalls) + [FlushCore]
    {
      r := ThrowIfDisposed(handle.closed, WriterName);
      if r.Fail? { return; }
      coreCalls := coreCalls + [FlushCore];
      r := core;
    }

    /** Dispose closes the handle with no disposed check, so it never raises and may
        be repeated. */
    method Dispose()
      modifies handle`closed, handle.lib
      ensures handle.closed && coreCalls == old(coreCalls)
      ensures handle.lib.calls == old(handle.lib.calls)
                                  + (if old(handle.closed) || handle.IsInvalid() then [] else [ReleaseCall(handle.kind, handle.raw)])
    {
      handle.Close();
    }
  }

  /** Once a writer is disposed, every operation raises the disposed error and no
      core operation runs; a second Dispose releases nothing. */
  method UseAfterDispose(w: PacketWriter, data: Option<seq<byte>>, packet: Option<Packet>, core: Outcome)
    returns (written: Outcome, packetWritten: Outcome, flushed: Outcome)
    modifies w, w.handle, w.handle.lib
    ensures written == Fail(ObjectDisposed(WriterName))
    ensures packetWritten == Fail(ObjectDisposed(WriterName))
    ensures flushed == Fail(ObjectDisposed(WriterName))
    ensures w.handle.closed && w.coreCalls == old(w.coreCalls)
    ensures w.handle.lib.calls == old(w.handle.lib.calls)
                                  + (if old(w.handle.closed) || w.handle.IsInvalid() then [] else [ReleaseCall(w.handle.kind, w.handle.raw)])
  {
    w.Dispose();
    w.Dispose();
    written := w.Write(data, core);
    packetWritten := w.WritePacket(packet, core);
    flushed := w.Flush(core);
  }
}
