/** The foreign-call surface of wpcap.dll (NativeMethods.cs, NativeStructures.cs).
    Nothing here runs native code: every native function is an oracle. Calls are
    recorded, in order, in the `calls` log of a `Wpcap` object; the result of a
    one-shot call is supplied by the caller of the model, and the results of
    successive `pcap_next_ex` calls come from a scripted `Session`. */
module NativeMethods {

  // ReturnValue (NativeMethods.cs:32-37)
  const ReturnSuccess: int := 0
  const ReturnError: int := -1
  const ReturnEof: int := -2

  /** Conversion factor from microseconds to DateTime ticks */
  const MicrosecondsToTicks: int := 10
  /** DateTime(1970, 1, 1) expressed in DateTime ticks (100 ns since 0001-01-01) */
  const UnixEpochTicks: int := 621_355_968_000_000_000

  newtype byte = x: int | 0 <= x < 256
  newtype int64 = x: int | -0x8000_0000_0000_0000 <= x < 0x8000_0000_0000_0000

  /** timeval: two pointer-sized integers, read with ToInt64 */
  datatype Timeval = Timeval(seconds: int64, microseconds: int64)

  /** pcap_pkthdr: the timestamp, the captured length and the length on the wire */
  datatype PacketHeader = PacketHeader(timestamp: Timeval, dataLength: nat, actualLength: nat)

  /** What one pcap_next_ex call hands back: its return code, the header it fills in
      and the bytes at the data pointer. */
  datatype NextResult = NextResult(code: int, header: PacketHeader, data: seq<byte>)

  /** The engine always provides at least `dataLength` bytes at the data pointer. */
  predicate WellFormed(r: NextResult) {
    r.header.dataLength <= |r.data|
  }

  /** The results successive pcap_next_ex calls return, in order */
  type Script = s: seq<NextResult> | forall i | 0 <= i < |s| :: WellFormed(s[i]) witness []

  /** The native state behind an open capture handle that the reader observes:
      whether pcap_breakloop has been requested, and the results still to come. */
  datatype Session = Session(breakRequested: bool, incoming: Script)

  const NoHeader := PacketHeader(Timeval(0, 0), 0, 0)

  /** The result of pcap_next_ex on a session: a pending break is reported as -2 and
      cleared; otherwise the next scripted result is consumed; a session whose script
      is used up behaves like an exhausted save file and reports -2. */
  function NextEx(s: Session): (r: (NextResult, Session))
    ensures !r.1.breakRequested
    ensures WellFormed(r.0)
    ensures r.0.code == ReturnEof || (s.incoming != [] && r.0 == s.incoming[0])
    ensures r.1.incoming == s.incoming || (s.incoming != [] && r.1.incoming == s.incoming[1..])
    ensures r.0.code != ReturnEof ==> |r.1.incoming| < |s.incoming|
  {
    if s.breakRequested then (NextResult(ReturnEof, NoHeader, []), s.(breakRequested := false))
    else if s.incoming == [] then (NextResult(ReturnEof, NoHeader, []), s)
    else (s.incoming[0], s.(incoming := s.incoming[1..]))
  }

  /** A foreign call, with the arguments the model can observe. */
  datatype Call =
    | PcapFindAllDevs
    | PcapFreeAllDevs
    | PcapOpenLive(device: string, snapshotLength: int, promiscuous: int, timeout: int)
    | PcapOpenOffline(fileName: string)
    | PcapDatalink(handle: int)
    | PcapNextEx(handle: int)
    | PcapBreakLoop(handle: int)
    | PcapGetErr(handle: int)
    | PcapCompile(handle: int, filter: string, optimize: int, netmask: int)
    | PcapSetFilter(handle: int)
    | PcapFreeCode
    | PcapClose(handle: int)
    | PcapDumpOpen(handle: int, fileName: string)
    | PcapDumpClose(dumper: int)

  /** The native library: the log of the calls made into it. */
  class Wpcap {
    var calls: seq<Call>

    constructor ()
      ensures calls == []
    {
      calls := [];
    }

    /** Makes one foreign call. */
    method Invoke(c: Call)
      modifies this
      ensures calls == old(calls) + [c]
    {
      calls := calls + [c];
    }
  }
}
