/** The LinkLayerType enumeration (LinkLayerType.cs): named members and their
    native data-link codes. A C# enum cast keeps any integer, so the reader stores
    the raw code; `Decode` says which named member, if any, a code stands for. */
module LinkLayerTypes {
  import opened Exceptions

  datatype LinkLayerType =
    | BsdLoopback
    | Ethernet
    | Ethernet3Megabit
    | AmateurRadioAX25
    | ProNet
    | TokenRing
    | ArcNet

  /** The native data-link code of a member; code 5 is not used. */
  function Code(t: LinkLayerType): (c: int)
    ensures 0 <= c <= 7 && c != 5
  {
    match t
    case BsdLoopback => 0
    case Ethernet => 1
    case Ethernet3Megabit => 2
    case AmateurRadioAX25 => 3
    case ProNet => 4
    case TokenRing => 6
    case ArcNet => 7
  }

  /** The member a native code names, if any. */
  function Decode(c: int): (r: Option<LinkLayerType>)
    ensures r.Some? ==> Code(r.value) == c
    ensures r.None? <==> (c < 0 || c == 5 || c > 7)
  {
    match c
    case 0 => Some(BsdLoopback)
    case 1 => Some(Ethernet)
    case 2 => Some(Ethernet3Megabit)
    case 3 => Some(AmateurRadioAX25)
    case 4 => Some(ProNet)
    case 6 => Some(TokenRing)
    case 7 => Some(ArcNet)
    case _ => None
  }

  /** The code table as declared. */
  lemma CodeTable()
    ensures Code(BsdLoopback) == 0 && Code(Ethernet) == 1 && Code(Ethernet3Megabit) == 2
    ensures Code(AmateurRadioAX25) == 3 && Code(ProNet) == 4
    ensures Code(TokenRing) == 6 && Code(ArcNet) == 7
  {
  }

  /** Distinct members have distinct codes. */
  lemma CodeInjective(a: LinkLayerType, b: LinkLayerType)
    ensures Code(a) == Code(b) ==> a == b
  {
  }

  /** Encoding a member and decoding its code gives the member back. */
  lemma DecodeCode(t: LinkLayerType)
    ensures Decode(Code(t)) == Some(t)
  {
  }
}
