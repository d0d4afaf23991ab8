# PacketCapture in Dafny

A Dafny model of the logic of Spladug.PacketCapture, a C# binding over the
WinPcap packet-capture library. The model covers the logic the binding wraps
around its foreign calls:

- the `PacketReader` session state machine: the disposed and busy guards and
  their order; the single-read loop over `pcap_next_ex`; the lazy packet
  sequence; the compile, set and free discipline of filters; the asynchronous
  worker and its completion; `Stop`, `CancelAsync` and `Dispose`;
- the `PacketWriter` guard layer;
- the owned handles (`PcapHandle`, `PcapDumperHandle`) and their release;
- the argument guards and the open-time checks of devices and save files;
- the device-list and address-list walks;
- the conversion of a packet's native timestamp into `DateTime` ticks;
- the `LinkLayerType` code table.

Every native function is an oracle. The calls made into wpcap.dll are recorded,
in order, in the `calls` log of a `NativeMethods.Wpcap` object. The result of a
one-shot call comes in as a parameter: the handle value an open returns, the
compile and setfilter codes, the device list. The results of successive
`pcap_next_ex` calls on a capture handle come from a scripted `Session`:

- a script is a finite sequence of results, each carrying at least as many
  bytes as its header's captured length;
- a used-up script reports end of file (-2), as an exhausted save file does;
- `pcap_breakloop` makes the next `pcap_next_ex` report -2 and clears the
  request, as libpcap does.

`DateTime` values are counts of ticks (100 ns units since 0001-01-01). The
range checks of `DateTime.AddSeconds` and `DateTime.AddTicks` are written out,
and so is the unchecked 64-bit product of the microseconds and ten.

Where the documentation and the code disagree, the model follows the code:

- `OpenRead(int)` accepts a snapshot length of 0, although its documentation
  asks for one greater than zero;
- `Dispose` on a busy reader is not idempotent: a second call raises from
  `Stop`;
- when `pcap_compile` fails, `pcap_freecode` is never called.

Modules: `Exceptions` gathers the .NET exceptions the library raises, as an
error datatype with the `Outcome`, `Result` and `Option` wrappers. Each other
module models one source file: `NativeMethods`, `ArgumentGuards`,
`LinkLayerTypes`, `Packets`, `SafeHandles`, `PacketReaders`, `PacketWriters`,
`AddressMarshaler`, `PacketCaptureDevices`, `PacketSaveFile`.

## Model

| member | source | states |
|---|---|---|
| NativeMethods.NextEx | Spladug.PacketCapture/NativeMethods.cs:57 | pcap_next_ex on a session: the result is -2 or the next scripted result; the break request is always cleared; a result other than -2 consumes exactly one scripted entry; every result carries at least its captured length in bytes |
| ArgumentGuards.ThrowIfNull | Spladug.PacketCapture/ArgumentGuards.cs:31-36 | raises ArgumentNullException(name) exactly when the reference is null, and otherwise does nothing |
| ArgumentGuards.ThrowIfNullOrEmpty | Spladug.PacketCapture/ArgumentGuards.cs:38-42 | raises ArgumentNullException(name), not an invalid-argument error, exactly when the string is null or has length 0 |
| ArgumentGuards.ThrowIfDisposed | Spladug.PacketCapture/ArgumentGuards.cs:44-49 | raises ObjectDisposedException(name) exactly when the handle is closed |
| LinkLayerTypes.Code | Spladug.PacketCapture/LinkLayerType.cs:35-71 | every member's code lies in 0..7 and is never 5 |
| LinkLayerTypes.Decode | Spladug.PacketCapture/LinkLayerType.cs:35-71 | the decode is partial: no member for a negative code, for 5 or for a code above 7; a member found has exactly the decoded code |
| LinkLayerTypes.CodeTable | Spladug.PacketCapture/LinkLayerType.cs:40-70 | the declared codes: BsdLoopback 0, Ethernet 1, Ethernet3Megabit 2, AmateurRadioAX25 3, ProNet 4, TokenRing 6, ArcNet 7 |
| LinkLayerTypes.CodeInjective | Spladug.PacketCapture/LinkLayerType.cs:35-71 | distinct members have distinct codes |
| LinkLayerTypes.DecodeCode | Spladug.PacketCapture/LinkLayerType.cs:35-71 | decoding a member's code gives the member back |
| Packets.Wrap64 | Spladug.PacketCapture/Packet.cs:54 | an unchecked `long` product lies in the 64-bit range and is unchanged when it already fits |
| Packets.AddTicks | Spladug.PacketCapture/Packet.cs:54 | DateTime.AddTicks succeeds exactly when the sum is a representable DateTime, and then returns the sum; otherwise it raises ArgumentOutOfRangeException |
| Packets.AddSeconds | Spladug.PacketCapture/Packet.cs:53 | DateTime.AddSeconds of whole seconds succeeds exactly when the millisecond count is in range and the result is representable; it then adds ten million ticks per second, and otherwise raises ArgumentOutOfRangeException |
| Packets.Packet.Timestamp | Spladug.PacketCapture/Packet.cs:48-55 | the timestamp is the Unix epoch plus Seconds seconds plus Microseconds × 10 ticks, and an ArgumentOutOfRangeException exactly when either step leaves the DateTime range |
| Packets.TimestampOfZero | Spladug.PacketCapture/Packet.cs:52-54 | a native timestamp of (0, 0) is 1970-01-01T00:00:00 |
| Packets.MicrosecondStep | Spladug.PacketCapture/Packet.cs:53-54 | one more microsecond is exactly 10 more ticks |
| Packets.SecondStep | Spladug.PacketCapture/Packet.cs:53-54 | one more second is exactly 10,000,000 more ticks |
| SafeHandles.SafeHandle.constructor | Spladug.PacketCapture/SafeHandles.cs:30-34 | a new handle owns its raw value and starts open |
| SafeHandles.SafeHandle.ReleaseHandle | Spladug.PacketCapture/SafeHandles.cs:36-40 | release makes exactly one call, pcap_close for a capture handle or pcap_dump_close for a dumper handle (lines 57-61), on the raw value, and always reports success |
| SafeHandles.SafeHandle.Close | Spladug.PacketCapture/SafeHandles.cs:28-34 | closing leaves the handle closed and never raises; the first close of a handle whose raw value is neither 0 nor -1 releases it, and any later close makes no call |
| SafeHandles.SafeHandle.ThrowLastError | Spladug.PacketCapture/SafeHandles.cs:42-46 | always raises a capture error whose text is what pcap_geterr reports now, after one pcap_geterr call |
| SafeHandles.SafeHandle.Datalink | Spladug.PacketCapture/NativeMethods.cs:66 | pcap_datalink returns the handle's data-link code |
| SafeHandles.SafeHandle.NextEx | Spladug.PacketCapture/NativeMethods.cs:57 | one logged pcap_next_ex call, whose result and new session are those of the session script |
| SafeHandles.SafeHandle.BreakLoop | Spladug.PacketCapture/NativeMethods.cs:60 | one logged pcap_breakloop call, which leaves a break requested and the script untouched |
| SafeHandles.OpenLive | Spladug.PacketCapture/NativeMethods.cs:54 | pcap_open_live returns a fresh open capture handle with the given raw value, and the error-buffer text |
| SafeHandles.OpenOffline | Spladug.PacketCapture/NativeMethods.cs:69 | pcap_open_offline returns a fresh open capture handle with the given raw value, and the error-buffer text |
| SafeHandles.DumpOpen | Spladug.PacketCapture/NativeMethods.cs:72 | pcap_dump_open on an open capture handle returns a fresh open dumper handle |
| PacketReaders.ReadLoop | Spladug.PacketCapture/PacketReader.cs:180-197 | the polling loop's result is never a timeout, took at least one call, and is well formed; a result other than -2 consumed script entries |
| PacketReaders.ToPacket | Spladug.PacketCapture/PacketReader.cs:199-206 | a packet's data is exactly the first `DataLength` bytes at the data pointer; its native timestamp is the header's; its link type is the reader's |
| PacketReaders.ReadStep | Spladug.PacketCapture/PacketReader.cs:176-207 | a disposed reader raises before any call; a packet read carries the reader's link type and exactly the captured length in bytes, and always consumes script |
| PacketReaders.Drain | Spladug.PacketCapture/PacketReader.cs:262-273 | enumerating the lazy sequence never grows the script |
| PacketReaders.FilterDiscipline | Spladug.PacketCapture/PacketReader.cs:110-134 | disposed is checked before null and both before any call; success exactly when neither compile nor setfilter returns -1; a failed compile raises with no setfilter or freecode; otherwise freecode runs exactly once, right after setfilter, and any error is raised after it |
| PacketReaders.PacketReader.constructor | Spladug.PacketCapture/PacketReader.cs:43-47 | the reader wraps the handle, calls pcap_datalink once and fixes its link type to the result; it starts not busy |
| PacketReaders.PacketReader.ThrowIfBusy | Spladug.PacketCapture/PacketReader.cs:59-63 | raises the "asynchronous operation in progress" error exactly when busy (IsBusy, lines 315-318) |
| PacketReaders.PacketReader.LinkLayerType | Spladug.PacketCapture/PacketReader.cs:76-83 | the getter raises the disposed error exactly when closed, and otherwise returns the value fixed at construction |
| PacketReaders.PacketReader.ApplyFilter | Spladug.PacketCapture/PacketReader.cs:110-134 | what ApplyFilter raises and the calls it makes are those of the filter discipline |
| PacketReaders.PacketReader.ClearFilter | Spladug.PacketCapture/PacketReader.cs:146-149 | ClearFilter has exactly the effect of ApplyFilter("") |
| PacketReaders.PacketReader.ReadPacketWithoutBusyCheck | Spladug.PacketCapture/PacketReader.cs:176-208 | the `while (true)` loop retries on 0 and returns exactly the read step: a packet, the end of the stream on -2, or the native error on -1 |
| PacketReaders.PacketReader.ReadPacket | Spladug.PacketCapture/PacketReader.cs:170-174 | when busy it raises the in-progress error with no call and no change; otherwise it is one read step |
| PacketReaders.PacketReader.ReadPackets | Spladug.PacketCapture/PacketReader.cs:256-260 | when busy it raises at once; otherwise it returns a fresh unstarted sequence, with the disposed check and every call deferred to enumeration |
| PacketReaders.PacketReader.Stop | Spladug.PacketCapture/PacketReader.cs:286-290 | raises the disposed error with no call when closed; otherwise calls pcap_breakloop once |
| PacketReaders.PacketReader.CancelAsync | Spladug.PacketCapture/PacketReader.cs:303-310 | when not busy it raises "No asynchronous operation in progress." before Stop; otherwise it is Stop |
| PacketReaders.PacketReader.ReadPacketsAsync | Spladug.PacketCapture/PacketReader.cs:383-395 | the disposed check comes first, then the busy check; on success the reader is busy |
| PacketReaders.PacketReader.WorkerRead | Spladug.PacketCapture/PacketReader.cs:404-410 | one iteration of the worker's `foreach` keeps its invariant: the packets read so far are posted in order and the pass continues or is complete |
| PacketReaders.PacketReader.ReadPacketsAsyncThreadWorker | Spladug.PacketCapture/PacketReader.cs:397-423 | the worker posts one PacketRead per packet of the pass, in order, then exactly one completion carrying the error that ended the pass, or none; afterwards the reader is not busy |
| PacketReaders.PacketReader.OnReadPacketsCompleted | Spladug.PacketCapture/PacketReader.cs:436-447 | the completion clears busy |
| PacketReaders.PacketReader.Dispose | Spladug.PacketCapture/PacketReader.cs:452-458 | Stop runs only when busy; a busy reader that is already closed raises from Stop; in every case the handle ends closed |
| PacketReaders.PacketEnumerator.MoveNext | Spladug.PacketCapture/PacketReader.cs:262-273 | each step is one read: a packet is yielded; the end of the stream or an error finishes the sequence for good, and a finished sequence makes no further call |
| PacketReaders.UseAfterDispose | Spladug.PacketCapture/PacketReader.cs:76-83 | after Dispose, LinkLayerType, Stop and ApplyFilter all raise the disposed error |
| PacketReaders.DisposeTwiceWhileBusy | Spladug.PacketCapture/PacketReader.cs:452-458 | on a busy open reader, the first Dispose succeeds and the second raises the disposed error from Stop |
| PacketReaders.LeadingTimeouts | Spladug.PacketCapture/PacketReader.cs:196-197 | the count of leading timeouts: every result before it is 0, and the result at it is not |
| PacketReaders.ScriptRun | Spladug.PacketCapture/PacketReader.cs:262-273 | the reference reading of a script reads no more packets than entries, and any error is the native error text |
| PacketReaders.ReadLoopSkipsTimeouts | Spladug.PacketCapture/PacketReader.cs:180-197 | the loop returns the first result that is not a timeout, after one call per skipped timeout plus one; a pending break is reported by the first call |
| PacketReaders.ReadStepMatchesScript | Spladug.PacketCapture/PacketReader.cs:180-207 | one read on an open reader: after k leading timeouts, the first scripted result decides it; -1 raises the native error after k+1 pcap_next_ex calls and one pcap_geterr; -2 or a used-up script is the end of the stream; any other code is the packet of that result; a pending break ends the stream after one call |
| PacketReaders.ScriptRunSkipsTimeouts | Spladug.PacketCapture/PacketReader.cs:196-197 | skipping the leading timeouts does not change what a script reads |
| PacketReaders.DrainMatchesScript | Spladug.PacketCapture/PacketReader.cs:262-273 | the sequence yields the packets of the script in order up to the first -1 or -2, and ends with an error exactly when that is -1; a pending break ends it at once, and a disposed reader raises with no call |
| PacketWriters.PacketWriter.constructor | Spladug.PacketCapture/PacketWriter.cs:82-85 | a writer wraps its handle and has run no core operation |
| PacketWriters.PacketWriter.Write | Spladug.PacketCapture/PacketWriter.cs:92-97 | disposed, then null; only then WriteCore runs, exactly once with the same buffer, and its outcome is the result |
| PacketWriters.PacketWriter.WritePacket | Spladug.PacketCapture/PacketWriter.cs:101-106 | disposed, then null; only then WritePacketCore runs, exactly once with the same packet |
| PacketWriters.PacketWriter.Flush | Spladug.PacketCapture/PacketWriter.cs:110-114 | disposed, then FlushCore exactly once |
| PacketWriters.PacketWriter.Dispose | Spladug.PacketCapture/PacketWriter.cs:118-121 | closes the handle with no disposed check, never raises, and runs no core operation |
| PacketWriters.UseAfterDispose | Spladug.PacketCapture/PacketWriter.cs:87-90 | after Dispose (twice), Write, WritePacket and Flush all raise the disposed error and no core operation runs |
| AddressMarshaler.PtrToAddress | Spladug.PacketCapture/AddressMarshaler.cs:34-52 | an address exactly for a non-null pointer of a supported family: IPv4 of the 32-bit field for InterNetwork, IPv6 of the 16 bytes and ScopeId for InterNetworkV6 |
| AddressMarshaler.Addresses | Spladug.PacketCapture/AddressMarshaler.cs:56-71 | the filtered list is never longer than the node list |
| AddressMarshaler.AddressesAppend | Spladug.PacketCapture/AddressMarshaler.cs:56-71 | the filter keeps list order: the addresses of two lists joined are those of each, in order |
| AddressMarshaler.AddressesMembership | Spladug.PacketCapture/AddressMarshaler.cs:56-71 | an address is in the result exactly when some node of the list carries it |
| AddressMarshaler.AddressesOfUnsupported | Spladug.PacketCapture/AddressMarshaler.cs:49-50 | null pointers and unsupported families contribute nothing |
| AddressMarshaler.MarshalAddresses | Spladug.PacketCapture/AddressMarshaler.cs:54-72 | the `while` walk returns exactly the filtered list in list order, and an empty list for a null head |
| PacketCaptureDevices.CheckSnapshotLength | Spladug.PacketCapture/PacketCaptureDevice.cs:113-114 | out of range exactly when the length is negative or above 65535, so 0 is accepted |
| PacketCaptureDevices.Descriptors | Spladug.PacketCapture/PacketCaptureDevice.cs:188-205 | one descriptor per node, in list order, with name and description copied and the node's addresses marshaled |
| PacketCaptureDevices.OpenPcapDevice | Spladug.PacketCapture/PacketCaptureDevice.cs:69-85 | opens in promiscuous mode with the 100 ms timeout; an invalid handle raises the error-buffer text |
| PacketCaptureDevices.OpenRead | Spladug.PacketCapture/PacketCaptureDevice.cs:111-119 | the range check precedes any call; then an invalid handle raises the error-buffer text, and a valid one gives a new reader on exactly that handle |
| PacketCaptureDevices.OpenReadDefault | Spladug.PacketCapture/PacketCaptureDevice.cs:62-67 | OpenRead() is OpenRead(65535) |
| PacketCaptureDevices.OpenWrite | Spladug.PacketCapture/PacketCaptureDevice.cs:138-142 | opens with snapshot length 65535 and returns a live writer on the new handle |
| PacketCaptureDevices.GetAllPacketCaptureDevices | Spladug.PacketCapture/PacketCaptureDevice.cs:178-206 | a -1 from pcap_findalldevs raises the error-buffer text before any walk; otherwise the result is one descriptor per node in list order, and the list is freed exactly once, after the walk |
| PacketSaveFile.OpenRead | Spladug.PacketCapture/PacketSaveFile.cs:52-63 | a null or empty file name raises an argument-null error before any call; an invalid handle raises the error-buffer text; otherwise a new reader wraps exactly the opened handle |
| PacketSaveFile.OpenWrite | Spladug.PacketCapture/PacketSaveFile.cs:84-95 | source is checked for null, then the file name; an invalid dumper raises the source handle's last native error, not an error-buffer text; otherwise a dump-file writer wraps the new dumper handle |

## Left out

- Threads, `AsyncOperation.Post` and the SynchronizationContext: the worker runs its whole pass at once, and the posted callbacks are recorded in `posted` in order. The completion callback runs directly after the worker. A `Dispose` or `Stop` that races with the worker cannot be expressed.
- `thread.Join(CaptureTimeout)` in `CancelAsync` only waits, so it is not modelled.
- The `PacketRead` and `ReadPacketsCompleted` events and their handlers are left out: they deliver the posted values to subscribers. PacketReadEventArgs.cs is not part of this model.
- The `Packet.Timestamp` setter is left out: it uses floating-point `TotalSeconds`.
- `DateTime` calendar semantics are left out; instants are tick counts.
- Struct layouts and `Marshal` memory reads are left out. Native lists are sequences, headers and socket addresses are datatypes, and the family is read as an integer. The netmask, broadcast and destination fields of `pcap_addr` and the `Flags` field of `pcap_if` are never read by the source, so they are left out too.
- The DllImport declarations are oracles with scripted results. The text `pcap_geterr` reports is fixed per handle, and the error buffer an open fills in is given.
- A capture that times out forever cannot be scripted, because a script is finite and ends in end of file. The read loop's termination therefore rests on the script's length.
- A `Marshal.Copy` that reads past the data the engine provides is not modelled, because a well-formed script always supplies the captured length.
- A closed source handle passed to `OpenWrite` of PacketSaveFile raises `HandleClosed`. This stands for the ObjectDisposedException that the interop layer raises when a closed SafeHandle is passed to a foreign call.
- The live and dump-file writer subclasses (`LivePacketWriter`, `DumpFilePacketWriter`) are not part of this model. Their core operations are recorded in `coreCalls`, and whether one raises is given by the caller.
- Calling `GetEnumerator` more than once on the sequence `ReadPackets` returns is not modelled: each `PacketEnumerator` is one enumeration.
- A negative `DataLength` in a packet header is not modelled: the header's captured length is a natural number. In the source, a negative value would make the buffer allocation raise OverflowException. The engine never reports one.
- Finalizers are not modelled. In particular, a handle that an open returns invalid is never released.
- `IsBusy` is the `busy` field itself (`thread != null`).
