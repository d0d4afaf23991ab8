/** Save files (PacketSaveFile.cs): opening a libpcap save file for reading, and a
    dump file for writing the packets of a reader. */
module PacketSaveFile {
  import opened Exceptions
  import opened NativeMethods
  import opened ArgumentGuards
  import opened SafeHandles
  import opened PacketReaders
  import opened PacketWriters

  /** OpenRead: a null or empty file name raises before any foreign call; an invalid
      handle from pcap_open_offline raises the error-buffer text; otherwise a reader
      wraps exactly the opened handle. */
  method OpenRead(fileName: Option<string>, lib: Wpcap, opening: Opening) returns (r: Result<PacketReader>)
    modifies lib
    ensures (fileName.None? || fileName.value == []) ==>
              r == Err(ArgumentNull("fileName")) && lib.calls == old(lib.calls)
    ensures fileName.Some? && fileName.value != [] && (opening.raw == 0 || opening.raw == -1) ==>
              r == Err(CaptureError(opening.errorBuffer))
              && lib.calls == old(lib.calls) + [PcapOpenOffline(fileName.value)]
    ensures fileName.Some? && fileName.value != [] && opening.raw != 0 && opening.raw != -1 ==>
              && r.Ok? && fresh(r.value) && fresh(r.value.handle) && r.value.Valid()
              && r.value.handle.raw == opening.raw && r.value.handle.lib == lib && !r.value.handle.closed
              && r.value.handle.session == opening.session && r.value.handle.lastError == opening.lastError
              && r.value.linkLayerType == opening.datalink && !r.value.busy
              && lib.calls == old(lib.calls) + [PcapOpenOffline(fileName.value), PcapDatalink(opening.raw)]
  {
    var guard := ThrowIfNullOrEmpty(fileName, "fileName");
    if guard.Fail? {
      return Err(guard.error);
    }
    var h, errorBuffer := OpenOffline(lib, fileName.value, opening);
    if h.IsInvalid() {
      return Err(CaptureError(errorBuffer));
    }
    var reader := new PacketReader(h);
    r := Ok(reader);
  }

  /** OpenWrite: the source is checked for null, then the file name; a disposed
      source's handle is refused by the interop layer; an invalid dumper handle
      raises the source handle's last native error; otherwise a dump-file writer
      wraps the new dumper handle. */
  method OpenWrite(source: Option<PacketReader>, fileName: Option<string>, dumperRaw: int)
    returns (r: Result<PacketWriter>)
    requires source.Some? ==> source.value.Valid()
    modifies if source.Some? then {source.value.handle.lib} else {}
    ensures source.None? ==> r == Err(ArgumentNull("source"))
    ensures source.Some? ==> var h := source.value.handle;
              && ((fileName.None? || fileName.value == []) ==>
                    r == Err(ArgumentNull("fileName")) && h.lib.calls == old(h.lib.calls))
              && (fileName.Some? && fileName.value != [] && h.closed ==>
                    r == Err(HandleClosed) && h.lib.calls == old(h.lib.calls))
              && (fileName.Some? && fileName.value != [] && !h.closed && (dumperRaw == 0 || dumperRaw == -1) ==>
                    r == Err(CaptureError(h.lastError))
                    && h.lib.calls == old(h.lib.calls) + [PcapDumpOpen(h.raw, fileName.value), PcapGetErr(h.raw)])
              && (fileName.Some? && fileName.value != [] && !h.closed && dumperRaw != 0 && dumperRaw != -1 ==>
                    && r.Ok? && fresh(r.value) && fresh(r.value.handle) && r.value.writerKind == DumpFileWriter
                    && r.value.handle.kind == PcapDumper && r.value.handle.raw == dumperRaw
                    && !r.value.handle.closed && r.value.coreCalls == []
                    && h.lib.calls == old(h.lib.calls) + [PcapDumpOpen(h.raw, fileName.value)])
  {
    var guard := ThrowIfNull(source, "source");
    if guard.Fail? {
      return Err(guard.error);
    }
    guard := ThrowIfNullOrEmpty(fileName, "fileName");
    if guard.Fail? {
      return Err(guard.error);
    }
    var h := source.value.handle;
    if h.closed {
      return Err(HandleClosed);
    }
    var dumper := DumpOpen(h, fileName.value, dumperRaw);
    if dumper.IsInvalid() {
      var e := h.ThrowLastError();
      return Err(e);
    }
    var writer := new PacketWriter(DumpFileWriter, dumper);
    r := Ok(writer);
  }
}
