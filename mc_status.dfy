/** The Minecraft "Server List Ping" status query: the three request
    packets, and the reading of the server's status and pong responses into
    an `MCStatus`. The JSON parser is an input (`parse`), and so is the
    clock (`now`, `timestampMS`). */
module Status {
  import opened Ints
  import opened Wrappers
  import opened Net
  import opened MCPacket
  import opened MCQuery

  // Packet ids and the handshake intent used by the query.
  const MC_PACKET_HANDSHAKE: byte := 0x00
  const MC_HANDSHAKE_INTENT_STATUS: int32 := 0x01
  const MC_PACKETID_STATUS: byte := 0x00
  const MC_PACKETID_PING: byte := 0x01
  const MC_PACKETACC_STATUS: int32 := 0x00
  const MC_PACKETACC_PONG: int32 := 0x01

  const NO_ERROR := "No error"
  const ERR_NO_RESPONSE := "Server failed to respond or denied the request"
  const ERR_NOT_PONG := "Server responded to ping with a packet other than pong"
  const ERR_NOT_STATUS := "Server responded to status with a packet other than status"
  const ERR_CORRUPT_JSON := "JSON parser discarded packet (corrupt JSON)"
  /** The model's name for a reply whose lengths do not fit the buffer: a
      read runs past its end, or the declared status length puts the end of
      the status packet before the start of the buffer, before the JSON text
      or past the end. */
  const ERR_TRUNCATED := "Response truncated"

  datatype Players = Players(online: int32, max: int32)
  datatype VersionInfo = VersionInfo(name: string, protocol: uint32)

  /** What the JSON parser makes of the status text: discarded, or the
      fields that were present. */
  datatype StatusDoc =
    | Discarded
    | Parsed(description: Option<string>, players: Option<Players>,
             version: Option<VersionInfo>, favicon: Option<string>)

  datatype MCStatus = MCStatus(players: Players, motd: string, icon: string,
                               version: VersionInfo, pingMS: uint64, online: bool, error: string)

  /** The status right after `Online = false; Error = "No error"`. */
  const Blank := MCStatus(Players(0, 0), "", "", VersionInfo("", 0), 0, false, NO_ERROR)

  // ---------------------------------------------------------------------
  // Request packets

  /** A packet on the wire: its length as a VarInt, then the payload. */
  function Frame(payload: seq<byte>): seq<byte>
  {
    VarIntBytes(WrapInt32(|payload|)) + payload
  }

  /** The handshake fields in order: packet id, protocol version, address
      length, address bytes, port (big-endian) and the status intent. */
  function HandshakePayload(server: MCServer): seq<byte>
  {
    [MC_PACKET_HANDSHAKE] + VarIntBytes(AsSigned32(server.protocolVersion))
    + VarIntBytes(WrapInt32(|server.ip|)) + server.ip
    + BigEndian(server.port, 2) + VarIntBytes(MC_HANDSHAKE_INTENT_STATUS)
  }

  method BuildHandshakePacket(server: MCServer) returns (packet: seq<byte>)
    ensures packet == Frame(HandshakePayload(server))
  {
    packet := [MC_PACKET_HANDSHAKE];
    packet := WriteVarInt(packet, AsSigned32(server.protocolVersion));
    packet := WriteVarInt(packet, WrapInt32(|server.ip|));
    packet := packet + server.ip;
    packet := WriteShort(packet, AsSigned16(server.port));
    packet := WriteVarInt(packet, MC_HANDSHAKE_INTENT_STATUS);
    packet := WriteVarIntAt(packet, 0, WrapInt32(|packet|));
  }

  method BuildStatusRequestPacket() returns (packet: seq<byte>)
    ensures packet == [0x01, 0x00]
  {
    packet := [MC_PACKETID_STATUS];
    packet := WriteVarIntAt(packet, 0, WrapInt32(|packet|));
  }

  method BuildPingRequestPacket(timestampMS: uint64) returns (packet: seq<byte>)
    ensures |packet| == 10 && packet[..2] == [0x09, MC_PACKETID_PING]
    ensures packet[2..] == BigEndian(timestampMS, 8)
    ensures FromBigEndian(packet[2..]) == timestampMS
    ensures packet == Frame([MC_PACKETID_PING] + BigEndian(timestampMS, 8))
  {
    ghost var payload := [MC_PACKETID_PING] + BigEndian(timestampMS, 8);
    packet := [MC_PACKETID_PING];
    packet := WriteLong(packet, AsSigned64(timestampMS));
    assert AsUnsigned64(AsSigned64(timestampMS)) == timestampMS;
    assert packet == payload && |payload| == 9;
    packet := WriteVarIntAt(packet, 0, WrapInt32(|packet|));
    assert VarIntBytes(WrapInt32(|payload|)) == [0x09];
    assert packet == [0x09] + payload;
    assert Pow2(8 * 8) == TWO_64 by { Pow2Values(); }
    BigEndianRoundTrip(timestampMS, 8);
  }

  /** Every framed packet starts with a VarInt giving the number of bytes
      that follow it. */
  lemma FrameLengthPrefix(payload: seq<byte>, rest: seq<byte>)
    requires |payload| < TWO_31
    ensures DecodeVarInt(Frame(payload) + rest, 0)
         == Ok(|payload|, |Frame(payload)| - |payload|)
  {
    var n := WrapInt32(|payload|);
    assert n == |payload|;
    assert Frame(payload) + rest == [] + VarIntBytes(n) + (payload + rest);
    VarIntRoundTrip([], n, payload + rest);
  }

  /** The handshake's length prefix counts exactly the bytes after it, for
      every address shorter than 2^31 - 21 bytes. */
  lemma HandshakeLengthPrefix(server: MCServer)
    requires |server.ip| < TWO_31 - 21
    ensures var p := Frame(HandshakePayload(server));
      DecodeVarInt(p, 0).Ok? && DecodeVarInt(p, 0).value == |p| - DecodeVarInt(p, 0).next
  {
    var payload := HandshakePayload(server);
    assert |payload| <= 1 + 5 + 5 + |server.ip| + 2 + 5;
    FrameLengthPrefix(payload, []);
    assert Frame(payload) + [] == Frame(payload);
  }

  // ---------------------------------------------------------------------
  // Reading the responses

  /** Where the parts of the two responses lie: the ids read, where the
      JSON text starts, the boundary `pingStart` (the cursor after the
      status length plus that length), and where the pong payload starts. */
  datatype Layout = Layout(statusId: int32, pongId: int32, jsonStart: nat, statusEnd: nat, pongPayload: nat)

  /** The five VarInt reads, in the order the query makes them; `None` when
      one of them runs past the received bytes or the boundary falls before
      the start of the buffer. */
  function ReadLayout(recv: seq<byte>): Option<Layout>
  {
    match DecodeVarInt(recv, 0)
    case PastEnd => None
    case Ok(statusLen, a) =>
      if a + statusLen < 0 then None
      else
        var pingStart := a + statusLen;
        match DecodeVarInt(recv, a)
        case PastEnd => None
        case Ok(statusId, b) =>
          match DecodeVarInt(recv, b)
          case PastEnd => None
          case Ok(_, jsonStart) =>
            match DecodeVarInt(recv, pingStart)
            case PastEnd => None
            case Ok(_, p) =>
              match DecodeVarInt(recv, p)
              case PastEnd => None
              case Ok(pongId, payload) => Some(Layout(statusId, pongId, jsonStart, pingStart, payload))
  }

  /** The fields of a parsed document copied into the status, which then
      counts as online; a discarded document gives the corrupt-JSON error. */
  function Fill(s: MCStatus, doc: StatusDoc): (r: MCStatus)
    requires !s.online
    ensures r.online <==> doc.Parsed?
    ensures r.error == if doc.Parsed? then s.error else ERR_CORRUPT_JSON
    ensures r.pingMS == s.pingMS
  {
    match doc
    case Discarded => s.(error := ERR_CORRUPT_JSON)
    case Parsed(description, players, version, favicon) =>
      s.(motd := description.GetOr(s.motd), players := players.GetOr(s.players),
         version := version.GetOr(s.version), icon := favicon.GetOr(s.icon), online := true)
  }

  /** The outcome of `QueryServer` for what the transport produced. The
      pong id is checked before the status id; the ping time is set before
      the JSON text is parsed. */
  function Interpret(success: bool, recv: seq<byte>, now: uint64, parse: seq<byte> -> StatusDoc): (r: MCStatus)
    ensures !success ==> r == Blank.(error := ERR_NO_RESPONSE)
    ensures r.online <==> r.error == NO_ERROR
    ensures success && ReadLayout(recv).Some? && ReadLayout(recv).value.pongId != MC_PACKETACC_PONG
        ==> r.error == ERR_NOT_PONG
    ensures success && ReadLayout(recv).Some? && ReadLayout(recv).value.pongId == MC_PACKETACC_PONG
            && ReadLayout(recv).value.statusId != MC_PACKETACC_STATUS
        ==> r.error == ERR_NOT_STATUS
  {
    if !success then Blank.(error := ERR_NO_RESPONSE)
    else
      match ReadLayout(recv)
      case None => Blank.(error := ERR_TRUNCATED)
      case Some(l) =>
        if l.pongId != MC_PACKETACC_PONG then Blank.(error := ERR_NOT_PONG)
        else if l.statusId != MC_PACKETACC_STATUS then Blank.(error := ERR_NOT_STATUS)
        else
          match ReadLong(recv, l.pongPayload)
          case None => Blank.(error := ERR_TRUNCATED)
          case Some(echo) =>
            var timed := Blank.(pingMS := SubU64(now, AsUnsigned64(echo)));
            if !(l.jsonStart <= l.statusEnd <= |recv|) then timed.(error := ERR_TRUNCATED)
            else Fill(timed, parse(recv[l.jsonStart..l.statusEnd]))
  }

  /** The five reads of `QueryServer`, advancing the status cursor and the
      ping cursor through the received bytes with early returns. */
  method ReadCursors(recv: seq<byte>) returns (layout: Option<Layout>)
    ensures layout == ReadLayout(recv)
  {
    var statusStart: nat := 0;
    var statusLen := ReadVarInt(recv, statusStart);
    if statusLen.PastEnd? || statusLen.next + statusLen.value < 0 {
      return None;
    }
    statusStart := statusLen.next;
    var pingStart: nat := statusStart + statusLen.value;
    var statusEnd := pingStart;
    var statusPacketId := ReadVarInt(recv, statusStart);
    if statusPacketId.PastEnd? {
      return None;
    }
    statusStart := statusPacketId.next;
    var jsonStringLen := ReadVarInt(recv, statusStart);
    if jsonStringLen.PastEnd? {
      return None;
    }
    statusStart := jsonStringLen.next;
    var pingLen := ReadVarInt(recv, pingStart);
    if pingLen.PastEnd? {
      return None;
    }
    pingStart := pingLen.next;
    var pingPacketId := ReadVarInt(recv, pingStart);
    if pingPacketId.PastEnd? {
      return None;
    }
    pingStart := pingPacketId.next;
    layout := Some(Layout(statusPacketId.value, pingPacketId.value, statusStart, statusEnd, pingStart));
  }

  /** The fields of a parsed document copied one by one into the status. */
  method FillStatus(s: MCStatus, doc: StatusDoc) returns (status: MCStatus)
    requires !s.online
    ensures status == Fill(s, doc)
  {
    status := s;
    if doc.Parsed? {
      if doc.description.Some? {
        status := status.(motd := doc.description.value);
      }
      if doc.players.Some? {
        status := status.(players := doc.players.value);
      }
      if doc.version.Some? {
        status := status.(version := doc.version.value);
      }
      if doc.favicon.Some? {
        status := status.(icon := doc.favicon.value);
      }
      status := status.(online := true);
    } else {
      status := status.(error := ERR_CORRUPT_JSON);
    }
  }

  /** The parsing half of `QueryServer`: the reads, the two id checks, the
      echoed timestamp, then the JSON text. */
  method ReadResponse(success: bool, recv: seq<byte>, now: uint64, parse: seq<byte> -> StatusDoc)
    returns (status: MCStatus)
    ensures status == Interpret(success, recv, now, parse)
  {
    status := Blank;
    if !success {
      status := status.(error := ERR_NO_RESPONSE);
      return;
    }
    var layout := ReadCursors(recv);
    if layout.None? {
      return status.(error := ERR_TRUNCATED);
    }
    var l := layout.value;
    if l.pongId != MC_PACKETACC_PONG {
      return status.(error := ERR_NOT_PONG);
    }
    if l.statusId != MC_PACKETACC_STATUS {
      return status.(error := ERR_NOT_STATUS);
    }
    var pingResponse := ReadLong(recv, l.pongPayload);
    if pingResponse.None? {
      return status.(error := ERR_TRUNCATED);
    }
    status := status.(pingMS := SubU64(now, AsUnsigned64(pingResponse.value)));
    if !(l.jsonStart <= l.statusEnd <= |recv|) {
      return status.(error := ERR_TRUNCATED);
    }
    status := FillStatus(status, parse(recv[l.jsonStart..l.statusEnd]));
  }

  /** `QueryServer`: build the three packets, let the transport send them on
      connect and collect the reply, then read the reply. */
  method QueryServer(server: MCServer, timestampMS: uint64, start: uint64, rounds: seq<Round>,
                     now: uint64, parse: seq<byte> -> StatusDoc)
    returns (status: MCStatus)
    ensures var sent := [Frame(HandshakePayload(server)), [0x01, 0x00],
                         Frame([MC_PACKETID_PING] + BigEndian(timestampMS, 8))];
      var outcome := Teardown(Poll(QueryView([], false, false, []), Handler(sent), IsDone, start, rounds).state);
      status == Interpret(outcome.success, outcome.recv, now, parse)
  {
    var handshakePacket := BuildHandshakePacket(server);
    var statusPacket := BuildStatusRequestPacket();
    var pingPacket := BuildPingRequestPacket(timestampMS);
    var query := new MCQueryState();
    var c := query.QueryMinecraft(server, [handshakePacket, statusPacket, pingPacket], start, rounds);
    status := ReadResponse(query.success, query.recv, now, parse);
  }

  // ---------------------------------------------------------------------
  // A well-formed reply is read back exactly

  /** A server's reply: a status_response carrying `json`, then a
      pong_response echoing `timestampMS`. */
  function ServerReply(json: seq<byte>, timestampMS: uint64): seq<byte>
  {
    Frame([0x00] + VarIntBytes(WrapInt32(|json|)) + json)
    + Frame([0x01] + BigEndian(timestampMS, 8))
  }

  /** The status_response of a reply with this JSON text. */
  function StatusPayload(json: seq<byte>): seq<byte>
  {
    [0x00] + VarIntBytes(WrapInt32(|json|)) + json
  }

  /** A VarInt read wherever the encoding of `v` sits in the buffer. */
  lemma ReadAt(data: seq<byte>, pre: seq<byte>, v: int32, post: seq<byte>)
    requires data == pre + VarIntBytes(v) + post
    ensures DecodeVarInt(data, |pre|) == Ok(v, |pre| + |VarIntBytes(v)|)
  {
    VarIntRoundTrip(pre, v, post);
  }

  /** A reply cut at its fields: the status length, the status id, the JSON
      length, the JSON text and the pong frame. */
  lemma ReplyShape(json: seq<byte>, timestampMS: uint64)
    requires |json| < TWO_31 - 6
    ensures WrapInt32(|StatusPayload(json)|) == |StatusPayload(json)|
    ensures ServerReply(json, timestampMS)
         == VarIntBytes(WrapInt32(|StatusPayload(json)|)) + [0] + VarIntBytes(WrapInt32(|json|)) + json
            + Frame([0x01] + BigEndian(timestampMS, 8))
  {
    var jb := VarIntBytes(WrapInt32(|json|));
    assert StatusPayload(json) == [0] + jb + json;
  }

  /** Three VarInts read in a row from a buffer laid out as a length, the
      id 0, a second length and a body. */
  lemma ThreeReads(data: seq<byte>, sl: int32, jl: int32, body: seq<byte>, tail: seq<byte>)
    requires data == VarIntBytes(sl) + [0] + VarIntBytes(jl) + body + tail
    ensures var a := |VarIntBytes(sl)|;
      var bodyStart := a + 1 + |VarIntBytes(jl)|;
      && DecodeVarInt(data, 0) == Ok(sl, a)
      && DecodeVarInt(data, a) == Ok(0, a + 1)
      && DecodeVarInt(data, a + 1) == Ok(jl, bodyStart)
      && data[bodyStart..bodyStart + |body|] == body
  {
    var head := VarIntBytes(sl);
    var jb := VarIntBytes(jl);
    assert data == [] + head + ([0] + jb + body + tail);
    ReadAt(data, [], sl, [0] + jb + body + tail);
    assert VarIntBytes(0) == [0];
    assert data == head + VarIntBytes(0) + (jb + body + tail);
    ReadAt(data, head, 0, jb + body + tail);
    assert data == (head + [0]) + jb + (body + tail);
    ReadAt(data, head + [0], jl, body + tail);
  }

  /** The first three reads of a well-formed reply: the status length, the
      status id and the JSON length. */
  lemma StatusReads(json: seq<byte>, timestampMS: uint64)
    requires |json| < TWO_31 - 6
    ensures var reply := ServerReply(json, timestampMS);
      var a := |Frame(StatusPayload(json))| - |StatusPayload(json)|;
      var jsonStart := a + 1 + |VarIntBytes(WrapInt32(|json|))|;
      && DecodeVarInt(reply, 0) == Ok(|StatusPayload(json)|, a)
      && DecodeVarInt(reply, a) == Ok(0, a + 1)
      && DecodeVarInt(reply, a + 1) == Ok(WrapInt32(|json|), jsonStart)
      && jsonStart + |json| == |Frame(StatusPayload(json))| <= |reply|
      && reply[jsonStart..jsonStart + |json|] == json
  {
    ReplyShape(json, timestampMS);
    ThreeReads(ServerReply(json, timestampMS), WrapInt32(|StatusPayload(json)|), WrapInt32(|json|), json,
               Frame([0x01] + BigEndian(timestampMS, 8)));
  }

  /** The last three reads of a well-formed reply: the pong length, the pong
      id and the echoed timestamp, read from the boundary on. */
  lemma PongReads(json: seq<byte>, timestampMS: uint64)
    ensures var reply := ServerReply(json, timestampMS);
      var pingStart := |Frame(StatusPayload(json))|;
      && DecodeVarInt(reply, pingStart) == Ok(9, pingStart + 1)
      && DecodeVarInt(reply, pingStart + 1) == Ok(MC_PACKETACC_PONG, pingStart + 2)
      && ReadLong(reply, pingStart + 2) == Some(AsSigned64(timestampMS))
  {
    var statusFrame := Frame(StatusPayload(json));
    var pongPayload := [0x01] + BigEndian(timestampMS, 8);
    var reply := ServerReply(json, timestampMS);
    assert WrapInt32(|pongPayload|) == 9;
    assert VarIntBytes(9) == [9];
    assert VarIntBytes(1) == [1];
    assert reply == statusFrame + VarIntBytes(9) + pongPayload;
    VarIntRoundTrip(statusFrame, 9, pongPayload);
    assert reply == (statusFrame + [9]) + VarIntBytes(1) + BigEndian(timestampMS, 8);
    VarIntRoundTrip(statusFrame + [9], 1, BigEndian(timestampMS, 8));
    var v := AsSigned64(timestampMS);
    assert AsUnsigned64(v) == timestampMS;
    assert reply == (statusFrame + [9, 1]) + BigEndian(AsUnsigned64(v), 8) + [];
    LongRoundTrip(statusFrame + [9, 1], v, []);
  }

  /** Reading a well-formed reply finds both packet ids, takes exactly
      `json` as the JSON text and reads the echoed timestamp back. */
  lemma ReplyLayout(json: seq<byte>, timestampMS: uint64)
    requires |json| < TWO_31 - 6
    ensures var reply := ServerReply(json, timestampMS);
      && ReadLayout(reply).Some?
      && var l := ReadLayout(reply).value;
      && l.statusId == MC_PACKETACC_STATUS && l.pongId == MC_PACKETACC_PONG
      && l.jsonStart <= l.statusEnd <= |reply|
      && reply[l.jsonStart..l.statusEnd] == json
      && ReadLong(reply, l.pongPayload) == Some(AsSigned64(timestampMS))
  {
    StatusReads(json, timestampMS);
    PongReads(json, timestampMS);
    var reply := ServerReply(json, timestampMS);
    var pingStart := |Frame(StatusPayload(json))|;
    var a := pingStart - |StatusPayload(json)|;
    LayoutFromReads(reply, a, |StatusPayload(json)|, a + 1 + |VarIntBytes(WrapInt32(|json|))|, pingStart);
  }

  /** The layout is fixed by where the five reads end. */
  lemma LayoutFromReads(data: seq<byte>, a: nat, statusLen: nat, jsonStart: nat, pingStart: nat)
    requires pingStart == a + statusLen
    requires DecodeVarInt(data, 0).Ok? && DecodeVarInt(data, 0).value == statusLen
    requires DecodeVarInt(data, 0).next == a
    requires DecodeVarInt(data, a) == Ok(MC_PACKETACC_STATUS, a + 1)
    requires DecodeVarInt(data, a + 1).Ok? && DecodeVarInt(data, a + 1).next == jsonStart
    requires DecodeVarInt(data, pingStart) == Ok(9, pingStart + 1)
    requires DecodeVarInt(data, pingStart + 1) == Ok(MC_PACKETACC_PONG, pingStart + 2)
    ensures ReadLayout(data) == Some(Layout(MC_PACKETACC_STATUS, MC_PACKETACC_PONG, jsonStart, pingStart, pingStart + 2))
  {
  }

  /** A well-formed reply makes the query online exactly when the JSON text
      parses, with the ping time `now - timestampMS` either way, and with
      the document's fields copied in. */
  lemma ReplyRoundTrip(json: seq<byte>, timestampMS: uint64, now: uint64, parse: seq<byte> -> StatusDoc)
    requires |json| < TWO_31 - 6
    ensures Interpret(true, ServerReply(json, timestampMS), now, parse)
         == Fill(Blank.(pingMS := SubU64(now, timestampMS)), parse(json))
  {
    ReplyLayout(json, timestampMS);
  }

  /** A server that sent a well-formed reply but kept the socket open past
      the deadline: the teardown's close marks the query a success, and the
      reply is read as if the server had closed it. */
  lemma OpenSocketReplyIsRead(v: QueryView, json: seq<byte>, timestampMS: uint64, now: uint64,
                              parse: seq<byte> -> StatusDoc)
    requires !v.done && v.recv == ServerReply(json, timestampMS) && |json| < TWO_31 - 6
    ensures var t := Teardown(v);
      Interpret(t.success, t.recv, now, parse) == Fill(Blank.(pingMS := SubU64(now, timestampMS)), parse(json))
  {
    var reply := ServerReply(json, timestampMS);
    assert |reply| > 0;
    var t := Teardown(v);
    assert t.success && t.recv == reply;
    ReplyRoundTrip(json, timestampMS, now, parse);
  }

  /** Hence, for a well-formed reply: online iff the parse is not discarded,
      and the corrupt-JSON error otherwise. */
  lemma ReplyOnlineIffParsed(json: seq<byte>, timestampMS: uint64, now: uint64, parse: seq<byte> -> StatusDoc)
    requires |json| < TWO_31 - 6
    ensures var s := Interpret(true, ServerReply(json, timestampMS), now, parse);
      && (s.online <==> parse(json).Parsed?)
      && (!s.online ==> s.error == ERR_CORRUPT_JSON)
      && s.pingMS == SubU64(now, timestampMS)
  {
    ReplyRoundTrip(json, timestampMS, now, parse);
  }
}
