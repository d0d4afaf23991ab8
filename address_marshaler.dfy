/** The address list walk (AddressMarshaler.cs). The native pcap_addr linked list
    is a sequence of nodes in list order; a socket address is the part of a
    sockaddr the marshaler reads. */
module AddressMarshaler {
  import opened Exceptions
  import opened NativeMethods

  /** AddressFamily.InterNetwork */
  const InterNetwork: int := 2
  /** AddressFamily.InterNetworkV6 */
  const InterNetworkV6: int := 23

  /** A sockaddr as read by the marshaler: the 16-bit family, and the fields of the
      sockaddr_in or sockaddr_in6 layout that the family selects. */
  datatype SocketAddress = SocketAddress(family: int, ipv4: nat, ipv6: seq<byte>, scopeId: nat)

  /** System.Net.IPAddress: a 32-bit IPv4 address, or 16 IPv6 bytes with a scope */
  datatype IPAddress = IPv4(address: nat) | IPv6(bytes: seq<byte>, scopeId: nat)

  /** One pcap_addr node: its address pointer, which may be null. The netmask,
      broadcast and destination pointers are never read. */
  datatype AddressNode = AddressNode(address: Option<SocketAddress>)

  predicate Supported(family: int) {
    family == InterNetwork || family == InterNetworkV6
  }

  /** PtrToAddress: a null pointer and an unsupported family give no address; an
      InterNetwork address gives IPv4 of the 32-bit field, an InterNetworkV6 address
      gives IPv6 of the address bytes and scope id. */
  function PtrToAddress(p: Option<SocketAddress>): (r: Option<IPAddress>)
    ensures r.Some? <==> p.Some? && Supported(p.value.family)
    ensures r.Some? && p.value.family == InterNetwork ==> r.value == IPv4(p.value.ipv4)
    ensures r.Some? && p.value.family == InterNetworkV6 ==> r.value == IPv6(p.value.ipv6, p.value.scopeId)
  {
    if p.None? then None
    else if p.value.family == InterNetwork then Some(IPv4(p.value.ipv4))
    else if p.value.family == InterNetworkV6 then Some(IPv6(p.value.ipv6, p.value.scopeId))
    else None
  }

  /** The addresses of a node list: the node list filtered to supported families,
      in list order. */
  function Addresses(nodes: seq<AddressNode>): (addresses: seq<IPAddress>)
    ensures |addresses| <= |nodes|
  {
    if nodes == [] then []
    else
      var head := PtrToAddress(nodes[0].address);
      (if head.Some? then [head.value] else []) + Addresses(nodes[1..])
  }

  /** The addresses of two lists joined are the addresses of each, in order. */
  lemma {:induction false} AddressesAppend(xs: seq<AddressNode>, ys: seq<AddressNode>)
    ensures Addresses(xs + ys) == Addresses(xs) + Addresses(ys)
    decreases |xs|
  {
    if xs == [] {
      assert xs + ys == ys;
    } else {
      var head := PtrToAddress(xs[0].address);
      var front := if head.Some? then [head.value] else [];
      assert (xs + ys)[0] == xs[0];
      assert (xs + ys)[1..] == xs[1..] + ys;
      AddressesAppend(xs[1..], ys);
      calc {
        Addresses(xs + ys);
        front + Addresses(xs[1..] + ys);
        front + (Addresses(xs[1..]) + Addresses(ys));
        (front + Addresses(xs[1..])) + Addresses(ys);
      }
    }
  }

  /** An address is in the result exactly when some node of the list carries it. */
  lemma {:induction false} AddressesMembership(nodes: seq<AddressNode>, a: IPAddress)
    ensures a in Addresses(nodes) <==> exists i | 0 <= i < |nodes| :: PtrToAddress(nodes[i].address) == Some(a)
    decreases |nodes|
  {
    if nodes != [] {
      AddressesMembership(nodes[1..], a);
      if exists i | 0 <= i < |nodes| :: PtrToAddress(nodes[i].address) == Some(a) {
        var i :| 0 <= i < |nodes| && PtrToAddress(nodes[i].address) == Some(a);
        if i > 0 {
          assert nodes[1..][i - 1] == nodes[i];
        }
      }
      if exists i | 0 <= i < |nodes[1..]| :: PtrToAddress(nodes[1..][i].address) == Some(a) {
        var i :| 0 <= i < |nodes[1..]| && PtrToAddress(nodes[1..][i].address) == Some(a);
        assert nodes[i + 1] == nodes[1..][i];
      }
    }
  }

  /** A list none of whose nodes carries a supported address yields nothing. */
  lemma {:induction false} AddressesOfUnsupported(nodes: seq<AddressNode>)
    requires forall i | 0 <= i < |nodes| :: nodes[i].address.None? || !Supported(nodes[i].address.value.family)
    ensures Addresses(nodes) == []
    decreases |nodes|
  {
    if nodes != [] {
      assert forall i | 0 <= i < |nodes[1..]| :: nodes[1..][i] == nodes[i + 1];
      AddressesOfUnsupported(nodes[1..]);
    }
  }

  /** MarshalAddresses: walks the list from its head, adding each supported address
      to the result in place; an empty list (a null head) gives an empty result. */
  method MarshalAddresses(nodes: seq<AddressNode>) returns (addresses: seq<IPAddress>)
    ensures addresses == Addresses(nodes)
    ensures nodes == [] ==> addresses == []
  {
    addresses := [];
    var current := 0;
    while current < |nodes|
      invariant 0 <= current <= |nodes|
      invariant addresses == Addresses(nodes[..current])
    {
      var address := PtrToAddress(nodes[current].address);
      AddressesAppend(nodes[..current], [nodes[current]]);
      assert nodes[..current + 1] == nodes[..current] + [nodes[current]];
      if address.Some? {
        addresses := addresses + [address.value];
      }
      current := current + 1;
    }
    assert nodes[..current] == nodes;
  }
}
