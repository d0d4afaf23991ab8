/** Capture devices (PacketCaptureDevice.cs): opening a device for reading or
    writing, and the enumeration of the devices the engine reports. The native
    pcap_if linked list is a sequence of nodes in list order. */
module PacketCaptureDevices {
  import opened Exceptions
  import opened NativeMethods
  import opened SafeHandles
  import opened AddressMarshaler
  import opened PacketReaders
  import opened PacketWriters

  /** UInt16.MaxValue: the largest snapshot length, used when none is given */
  const MaxSnapshotLength: int := 65535
  const SnapshotLengthMessage := "Must be a value between 0 and 65535"
  /** Devices are always opened in promiscuous mode */
  const Promiscuous: int := 1

  /** A device: its name, its description (which may be null) and its addresses */
  datatype PacketCaptureDevice = PacketCaptureDevice(name: string, description: Option<string>, addresses: seq<IPAddress>)

  /** One pcap_if node, with the fields the walk reads */
  datatype DeviceNode = DeviceNode(name: string, description: Option<string>, addresses: seq<AddressNode>)

  /** What pcap_findalldevs hands back: its return code, the error-buffer text and
      the device list. */
  datatype FindAllDevs = FindAllDevs(code: int, errorBuffer: string, devices: seq<DeviceNode>)

  /** The range check of OpenRead(int): 0 is accepted, although the documentation
      asks for a length greater than zero. */
  function CheckSnapshotLength(snapshotLength: int): (r: Outcome)
    ensures r.Pass? <==> 0 <= snapshotLength <= MaxSnapshotLength
    ensures r.Fail? ==> r.error == ArgumentOutOfRange("snapshotLength", SnapshotLengthMessage)
  {
    if snapshotLength < 0 || snapshotLength > MaxSnapshotLength then
      Fail(ArgumentOutOfRange("snapshotLength", SnapshotLengthMessage))
    else Pass
  }

  /** The descriptor built from one node: name and description copied, and the
      node's address list marshaled. */
  function Descriptor(node: DeviceNode): PacketCaptureDevice {
    PacketCaptureDevice(node.name, node.description, Addresses(node.addresses))
  }

  /** The descriptors of a device list: one per node, in list order. */
  function Descriptors(nodes: seq<DeviceNode>): (devices: seq<PacketCaptureDevice>)
    ensures |devices| == |nodes|
    ensures forall i | 0 <= i < |nodes| ::
              && devices[i].name == nodes[i].name
              && devices[i].description == nodes[i].description
              && devices[i].addresses == Addresses(nodes[i].addresses)
  {
    if nodes == [] then []
    else [Descriptor(nodes[0])] + Descriptors(nodes[1..])
  }

  /** OpenPcapDevice: pcap_open_live in promiscuous mode with the reader's timeout; an
      invalid handle raises the error-buffer text. */
  method OpenPcapDevice(device: PacketCaptureDevice, snapshotLength: int, lib: Wpcap, opening: Opening)
    returns (r: Result<SafeHandle>)
    modifies lib
    ensures lib.calls == old(lib.calls) + [PcapOpenLive(device.name, snapshotLength, Promiscuous, CaptureTimeout)]
    ensures r.Err? <==> opening.raw == 0 || opening.raw == -1
    ensures r.Err? ==> r.error == CaptureError(opening.errorBuffer)
    ensures r.Ok? ==> (fresh(r.value) && r.value.kind == Pcap && r.value.raw == opening.raw && r.value.lib == lib
                       && !r.value.closed && r.value.datalink == opening.datalink
                       && r.value.lastError == opening.lastError && r.value.session == opening.session)
  {
    var h, errorBuffer := OpenLive(lib, device.name, snapshotLength, Promiscuous, CaptureTimeout, opening);
    if h.IsInvalid() {
      return Err(CaptureError(errorBuffer));
    }
    r := Ok(h);
  }

  /** OpenRead(int): the range check comes before any foreign call; then the device
      is opened and a reader wraps the new handle. */
  method OpenRead(device: PacketCaptureDevice, snapshotLength: int, lib: Wpcap, opening: Opening)
    returns (r: Result<PacketReader>)
    modifies lib
    ensures (snapshotLength < 0 || snapshotLength > MaxSnapshotLength) ==>
              r == Err(ArgumentOutOfRange("snapshotLength", SnapshotLengthMessage)) && lib.calls == old(lib.calls)
    ensures 0 <= snapshotLength <= MaxSnapshotLength && (opening.raw == 0 || opening.raw == -1) ==>
              r == Err(CaptureError(opening.errorBuffer))
              && lib.calls == old(lib.calls) + [PcapOpenLive(device.name, snapshotLength, Promiscuous, CaptureTimeout)]
    ensures 0 <= snapshotLength <= MaxSnapshotLength && opening.raw != 0 && opening.raw != -1 ==>
              && r.Ok? && fresh(r.value) && fresh(r.value.handle) && r.value.Valid()
              && r.value.handle.raw == opening.raw && r.value.handle.lib == lib && !r.value.handle.closed
              && r.value.handle.session == opening.session && r.value.handle.lastError == opening.lastError
              && r.value.linkLayerType == opening.datalink && !r.value.busy
              && lib.calls == old(lib.calls) + [PcapOpenLive(device.name, snapshotLength, Promiscuous, CaptureTimeout),
                                                PcapDatalink(opening.raw)]
  {
    var guard := CheckSnapshotLength(snapshotLength);
    if guard.Fail? {
      return Err(guard.error);
    }
    var handle := OpenPcapDevice(device, snapshotLength, lib, opening);
    if handle.Err? {
      return Err(handle.error);
    }
    var reader := new PacketReader(handle.value);
    r := Ok(reader);
  }

  /** OpenRead(): the largest snapshot length, so no packet is clipped. */
  method OpenReadDefault(device: PacketCaptureDevice, lib: Wpcap, opening: Opening) returns (r: Result<PacketReader>)
    modifies lib
    ensures (opening.raw == 0 || opening.raw == -1) ==>
              r == Err(CaptureError(opening.errorBuffer))
              && lib.calls == old(lib.calls) + [PcapOpenLive(device.name, MaxSnapshotLength, Promiscuous, CaptureTimeout)]
    ensures opening.raw != 0 && opening.raw != -1 ==>
              && r.Ok? && fresh(r.value) && fresh(r.value.handle) && r.value.Valid()
              && r.value.handle.raw == opening.raw && r.value.handle.lib == lib && !r.value.handle.closed
              && r.value.handle.session == opening.session && r.value.handle.lastError == opening.lastError
              && r.value.linkLayerType == opening.datalink && !r.value.busy
              && lib.calls == old(lib.calls) + [PcapOpenLive(device.name, MaxSnapshotLength, Promiscuous, CaptureTimeout),
                                                PcapDatalink(opening.raw)]
  {
    r := OpenRead(device, MaxSnapshotLength, lib, opening);
  }

  /** OpenWrite: the device opened with the largest snapshot length, and a live
      writer on the new handle. */
  method OpenWrite(device: PacketCaptureDevice, lib: Wpcap, opening: Opening) returns (r: Result<PacketWriter>)
    modifies lib
    ensures lib.calls == old(lib.calls) + [PcapOpenLive(device.name, MaxSnapshotLength, Promiscuous, CaptureTimeout)]
    ensures (opening.raw == 0 || opening.raw == -1) ==> r == Err(CaptureError(opening.errorBuffer))
    ensures opening.raw != 0 && opening.raw != -1 ==>
              && r.Ok? && fresh(r.value) && fresh(r.value.handle) && r.value.writerKind == LiveWriter
              && r.value.handle.kind == Pcap && r.value.handle.raw == opening.raw && !r.value.handle.closed
              && r.value.coreCalls == []
  {
    var handle := OpenPcapDevice(device, MaxSnapshotLength, lib, opening);
    if handle.Err? {
      return Err(handle.error);
    }
    var writer := new PacketWriter(LiveWriter, handle.value);
    r := Ok(writer);
  }

  /** GetAllPacketCaptureDevices: a failed pcap_findalldevs raises the error-buffer
      text before any walk; otherwise the list is walked from its head, one
      descriptor per node, and freed exactly once after the walk. */
  method GetAllPacketCaptureDevices(lib: Wpcap, found: FindAllDevs) returns (r: Result<seq<PacketCaptureDevice>>)
    modifies lib
    ensures found.code == ReturnError ==>
              r == Err(CaptureError(found.errorBuffer)) && lib.calls == old(lib.calls) + [PcapFindAllDevs]
    ensures found.code != ReturnError ==>
              r == Ok(Descriptors(found.devices)) && lib.calls == old(lib.calls) + [PcapFindAllDevs, PcapFreeAllDevs]
  {
    lib.Invoke(PcapFindAllDevs);
    if found.code == ReturnError {
      return Err(CaptureError(found.errorBuffer));
    }
    var nodes := found.devices;
    var devices: seq<PacketCaptureDevice> := [];
    var current := 0;
    while current < |nodes|
      invariant 0 <= current <= |nodes|
      invariant |devices| == current
      invariant forall j | 0 <= j < current :: devices[j] == Descriptor(nodes[j])
      invariant lib.calls == old(lib.calls) + [PcapFindAllDevs]
    {
      var node := nodes[current];
      var addresses := MarshalAddresses(node.addresses);
      devices := devices + [PacketCaptureDevice(node.name, node.description, addresses)];
      current := current + 1;
    }
    assert devices == Descriptors(nodes);
    lib.Invoke(PcapFreeAllDevs);
    r := Ok(devices);
  }
}
