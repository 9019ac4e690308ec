/** The packet metadata that every component works on (internal/model/packet.go). */
module Packets {
  import opened Words

  datatype FiveTuple = FiveTuple(srcIP: Key, dstIP: Key, srcPort: uint16, dstPort: uint16, protocol: uint8)

  /** The configured name of a key field; the tasks know five names. */
  datatype Field = SrcIP | DstIP | SrcPort | DstPort | Protocol | Unknown(name: string)

  /** timestamp is in nanoseconds since 1970 and length an int of 64 bits. */
  datatype PacketInfo = PacketInfo(timestamp: int, fiveTuple: FiveTuple, length: int64)

  /** The lengths of packets, added up as the integers they are. */
  function Lengths(h: seq<PacketInfo>): int {
    if h == [] then 0 else Lengths(h[..|h| - 1]) + h[|h| - 1].length
  }

  predicate NoneNegative(h: seq<PacketInfo>) {
    forall p :: p in h ==> p.length >= 0
  }
}
