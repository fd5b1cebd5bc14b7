/**
 * The server's receive loop body: decode the request, turn it into a reply by
 * setting the mode and the three exchange timestamps, and encode the reply.
 * The server's packet class is the same codec as the client's and is modelled
 * once, in `Packet`.
 */
module Server {
  import opened Results
  import opened Wire
  import opened Packet
  import opened NtpTime

  /**
   * Reply stamping on a decoded request: mode 4 (server), origin = the
   * request's transmit time, then the receive and transmit readings.
   */
  function StampReply<T>(request: Frame<T>, received: T, transmitted: T): (reply: Frame<T>)
    ensures reply.(mode := request.mode, orgTimestamp := request.orgTimestamp,
                   rcvTimestamp := request.rcvTimestamp, xmtTimestamp := request.xmtTimestamp) == request
  {
    request.(mode := MODE_SERVER, orgTimestamp := request.xmtTimestamp,
             rcvTimestamp := received, xmtTimestamp := transmitted)
  }

  /**
   * The reply echoes the request's transmit time as its origin, so a client
   * can match it with its own transmit time; every field a client reads for
   * the server's clock comes from the server's readings.
   */
  lemma StampReplyExchange<T>(request: Frame<T>, received: T, transmitted: T)
    ensures var reply := StampReply(request, received, transmitted);
      && reply.mode == MODE_SERVER && reply.orgTimestamp == request.xmtTimestamp
      && reply.rcvTimestamp == received && reply.xmtTimestamp == transmitted
      && reply.li == request.li && reply.version == request.version && reply.stratum == request.stratum
      && reply.poll == request.poll && reply.precision == request.precision
      && reply.rootDelay == request.rootDelay && reply.rootDispersion == request.rootDispersion
      && reply.referenceId == request.referenceId && reply.referenceTimestamp == request.referenceTimestamp
  {
  }

  /**
   * With a clock that does not run backwards, the receive reading is taken
   * first, so the reply's receive time is not after its transmit time and the
   * server's processing time T3 - T2 is never negative.
   */
  lemma ReplyStampsOrdered(request: Frame<real>, rcvClock: real, xmtClock: real)
    requires rcvClock <= xmtClock
    ensures var reply := StampReply(request, SystemToNtpTime(rcvClock), SystemToNtpTime(xmtClock));
      reply.rcvTimestamp <= reply.xmtTimestamp && reply.xmtTimestamp - reply.rcvTimestamp == xmtClock - rcvClock
  {
    SystemToNtpTimeMonotonic(rcvClock, xmtClock);
  }

  /** The header byte of the reply: the request's leap and version bits with mode 4. */
  lemma ReplyHeader(b: byte)
    ensures var h := UnpackHeader(b); PackHeader(h.li, h.version, MODE_SERVER) == b / 8 * 8 + MODE_SERVER
  {
    var h := UnpackHeader(b);
    SplitByte(b);
  }

  /** Bytes 1 to 23 of a packed frame: stratum, poll, precision, the three words and the reference timestamp. */
  lemma EncodeMiddle(f: Frame<Stamp>)
    requires Packable(f)
    ensures Encode(f).value[1..24]
         == [f.stratum as byte, SignedByte(f.poll), SignedByte(f.precision)]
            + ToBigEndian(f.rootDelay, 4) + ToBigEndian(f.rootDispersion, 4) + ToBigEndian(f.referenceId, 4)
            + f.referenceTimestamp
  {
    EncodeLayout(f);
    var b := Encode(f).value;
    assert b[1..24] == [b[1], b[2], b[3]] + b[4..8] + b[8..12] + b[12..16] + b[16..24];
  }

  /**
   * The reply to one datagram. A datagram shorter than a frame fails to
   * unpack; any other is answered with a frame that keeps the request's first
   * 24 bytes except the mode bits, carries the request's transmit timestamp
   * as origin, and the two readings as receive and transmit timestamps.
   */
  function Reply(data: seq<byte>, received: Stamp, transmitted: Stamp): (r: Result<seq<byte>, CodecError>)
    ensures r.Err? <==> |data| < FRAME_SIZE
    ensures r.Err? ==> r.error == ShortBuffer(|data|)
    ensures r.Ok? ==>
      && |r.value| == FRAME_SIZE
      && r.value[0] == data[0] / 8 * 8 + MODE_SERVER
      && r.value[1..24] == data[1..24]
      && r.value[24..32] == data[40..48]
      && r.value[32..40] == received
      && r.value[40..48] == transmitted
  {
    match Decode(data)
    case Err(e) => Err(e)
    case Ok(request) =>
      var reply := StampReply(request, received, transmitted);
      ReplyLayout(data, request, received, transmitted);
      Encode(reply)
  }

  lemma ReplyLayout(data: seq<byte>, request: Frame<Stamp>, received: Stamp, transmitted: Stamp)
    requires Decode(data) == Ok(request)
    ensures var r := Encode(StampReply(request, received, transmitted));
      && r.Ok? && |r.value| == FRAME_SIZE
      && r.value[0] == data[0] / 8 * 8 + MODE_SERVER
      && r.value[1..24] == data[1..24]
      && r.value[24..32] == data[40..48]
      && r.value[32..40] == received
      && r.value[40..48] == transmitted
  {
    var reply := StampReply(request, received, transmitted);
    EncodeDecode(data);
    ReplyHeader(data[0]);
    HeaderRoundTrip(request.li, request.version, MODE_SERVER);
    EncodeLayout(reply);
    EncodeMiddle(reply);
    EncodeMiddle(request);
    assert Encode(request).value[1..24] == data[1..24];
    assert Encode(request).value[40..48] == data[40..48];
  }

  /**
   * The receive loop body as the server runs it on its packet object: decode in
   * place, overwrite the mode and the three timestamps, encode.
   */
  method Respond(data: seq<byte>, received: Stamp, transmitted: Stamp) returns (r: Result<seq<byte>, CodecError>)
    ensures r == Reply(data, received, transmitted)
  {
    var packet := new NtpPacket();
    var status := packet.ConvertToObj(data);
    if status.Fail? {
      return Err(status.error);
    }
    packet.mode := MODE_SERVER;
    packet.orgTimestamp := packet.xmtTimestamp;
    packet.rcvTimestamp := received;
    packet.xmtTimestamp := transmitted;
    assert packet.Value() == StampReply(Decode(data).value, received, transmitted);
    r := packet.ConvertToBytes();
  }
}
