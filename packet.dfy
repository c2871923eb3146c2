/** The wire envelopes of the protocol (packet.go). */
module Packets {
  import Wrappers
  import opened Values

  /** One CRUD request unit: an action code, the target handler id, an echoed correlation token and zero or more encoded arguments. */
  datatype Packet = Packet(action: Byte, handlerId: Byte, reqId: string, data: seq<Block>)

  datatype BatchRequest = BatchRequest(packets: seq<Packet>)

  /** A packet result embeds the complete packet it answers, plus a status code and a user message. */
  datatype PacketResult = PacketResult(packet: Packet, messageType: Byte, message: string)

  datatype BatchResponse = BatchResponse(results: seq<PacketResult>)

  /** Single-operation envelopes of the automatic routes. */
  datatype Request = Request(reqId: string, data: seq<Block>)

  datatype Response = Response(reqId: string, data: seq<Block>, messageType: Byte, message: string)

  /** The message types and their wire codes. */
  datatype MessageType = Normal | Info | Error | Warning | Success

  function Code(t: MessageType): (c: Byte)
    ensures c <= 4
  {
    match t
    case Normal => 0
    case Info => 1
    case Error => 2
    case Warning => 3
    case Success => 4
  }

  function TypeOfCode(c: Byte): (t: Wrappers.Option<MessageType>)
    ensures t.Some? <==> c <= 4
  {
    if c == 0 then Wrappers.Some(Normal)
    else if c == 1 then Wrappers.Some(Info)
    else if c == 2 then Wrappers.Some(Error)
    else if c == 3 then Wrappers.Some(Warning)
    else if c == 4 then Wrappers.Some(Success)
    else Wrappers.None
  }

  /** Codes and message types are in one-to-one correspondence, in both directions. */
  lemma CodesRoundTrip(t: MessageType, c: Byte)
    ensures TypeOfCode(Code(t)) == Wrappers.Some(t)
    ensures c <= 4 ==> Code(TypeOfCode(c).value) == c
  {
  }
}
