/**
 The UDP proxy of src/library/udp_proxy.cpp: requests to devices behind the border
 agent travel inside UDP_TX messages, and their answers come back inside UDP_RX ones.
 */
module UdpProxy {
  import opened Outcomes
  import opened Bytes
  import opened Tlv
  import opened Datasets
  import opened DatasetCodec
  import opened CoapOption
  import opened CoapMessage
  import opened ServiceUri

  const NON_CONFIRMABLE := 1
  const POST := 2
  const IPV6_SIZE := 16

  /** Source port, destination port and datagram. */
  function Encapsulation(localPort: Word, peerPort: Word, datagram: ByteArray): ByteArray {
    BigEndian(2, localPort) + BigEndian(2, peerPort) + datagram
  }

  function UdpTxPayload(peerAddr: ByteArray, localPort: Word, peerPort: Word, datagram: ByteArray): ByteArray {
    TlvBytes(Tlv(IPV6_ADDRESS, peerAddr)) + TlvBytes(Tlv(UDP_ENCAPSULATION, Encapsulation(localPort, peerPort, datagram)))
  }

  /** The UDP_TX message for a datagram, before a message id and a token are given to it. */
  function UdpTx(peerAddr: ByteArray, localPort: Word, peerPort: Word, datagram: ByteArray): Message {
    Message(Header(VERSION_1, NON_CONFIRMABLE, 0, POST, 0, []), map[URI_PATH := UDP_TX],
            UdpTxPayload(peerAddr, localPort, peerPort, datagram))
  }

  /** `ProxyEndpoint::Send` up to the point where the message is handed to the border-agent client. */
  method Encapsulate(peerAddr: ByteArray, peerPort: Word, connected: bool, localPort: Word, datagram: ByteArray)
    returns (r: Outcome<Message>)
    ensures r == if |peerAddr| != IPV6_SIZE || !connected then Err(InvalidState)
                 else if |datagram| >= 0x1_0000 - 4 then Err(InvalidArgs)
                 else Ok(UdpTx(peerAddr, localPort, peerPort, datagram))
  {
    hide Service, SetUriPath, TlvBytes, BigEndian, IsValid;
    if |peerAddr| != IPV6_SIZE {
      return Err(InvalidState);
    }
    if !connected {
      return Err(InvalidState);
    }
    var udpPayload := Encode([], 2, localPort);
    udpPayload := Encode(udpPayload, 2, peerPort);
    udpPayload := udpPayload + datagram;
    assert udpPayload == Encapsulation(localPort, peerPort, datagram);
    EncapsulationParts(localPort, peerPort, datagram);
    ProxyTlvLengths(peerAddr, udpPayload);
    PathIsSet(99, 117, 116);
    var options := SetUriPath(map[], UDP_TX);
    var payload := AppendTlv([], Tlv(IPV6_ADDRESS, peerAddr));
    assert [] + TlvBytes(Tlv(IPV6_ADDRESS, peerAddr)) == TlvBytes(Tlv(IPV6_ADDRESS, peerAddr));
    payload := AppendTlv(payload.value, Tlv(UDP_ENCAPSULATION, udpPayload));
    if !payload.Ok? {
      return payload.PropagateFailure();
    }
    r := Ok(Message(Header(VERSION_1, NON_CONFIRMABLE, 0, POST, 0, []), options.value, payload.value));
  }

  lemma ProxyTlvLengths(peerAddr: ByteArray, encapsulation: ByteArray)
    ensures IsValid(MeshCoP, IPV6_ADDRESS, peerAddr) <==> |peerAddr| == IPV6_SIZE
    ensures IsValid(MeshCoP, UDP_ENCAPSULATION, encapsulation) <==> 4 <= |encapsulation| < 0x1_0000
  {
  }

  lemma EncapsulationParts(localPort: Word, peerPort: Word, datagram: ByteArray)
    ensures var e := Encapsulation(localPort, peerPort, datagram);
            |e| == 4 + |datagram| && Pair(e[0], e[1]) == localPort && Pair(e[2], e[3]) == peerPort && e[4..] == datagram
  {
    TwoDigits(localPort);
    TwoDigits(peerPort);
  }

  datatype Packet = Packet(peerAddr: ByteArray, peerPort: Word, datagram: ByteArray)

  /** What a received UDP_RX message carries: the sender and the datagram. */
  function Decapsulated(payload: ByteArray): Outcome<Packet> {
    var tlvs := SetOf(payload);
    if !tlvs.Ok? || IPV6_ADDRESS !in tlvs.value || UDP_ENCAPSULATION !in tlvs.value then Err(BadFormat)
    else
      var encapsulated := tlvs.value[UDP_ENCAPSULATION];
      assert IsValid(MeshCoP, UDP_ENCAPSULATION, encapsulated);
      Ok(Packet(tlvs.value[IPV6_ADDRESS], Pair(encapsulated[0], encapsulated[1]), encapsulated[4..]))
  }

  /**
   `ProxyClient::HandleUdpRx` up to the point where the datagram is handed to the CoAP engine.
   A valid IPv6 Address TLV has 16 bytes, which `Address::Set` always takes.
   */
  method HandleUdpRx(payload: ByteArray) returns (r: Outcome<Packet>)
    ensures r == Decapsulated(payload)
  {
    hide ParseTlvs, SetOf;
    var srcAddr := GetTlv(IPV6_ADDRESS, payload);
    if srcAddr == None {
      return Err(BadFormat);
    }
    var udpEncap := GetTlv(UDP_ENCAPSULATION, payload);
    if udpEncap == None {
      return Err(BadFormat);
    }
    assert IsValid(MeshCoP, UDP_ENCAPSULATION, SetOf(payload).value[UDP_ENCAPSULATION]);
    var peerPort := Pair(udpEncap.value[0], udpEncap.value[1]);
    r := Ok(Packet(srcAddr.value, peerPort, udpEncap.value[4..]));
  }

  /** What was encapsulated comes out again, and its source port becomes the peer port. */
  lemma DecapsulateEncapsulated(peerAddr: ByteArray, localPort: Word, peerPort: Word, datagram: ByteArray)
    requires |peerAddr| == IPV6_SIZE && |datagram| < 0x1_0000 - 4
    ensures Decapsulated(UdpTxPayload(peerAddr, localPort, peerPort, datagram)) == Ok(Packet(peerAddr, localPort, datagram))
  {
    hide TlvBytes, ParseTlvs, Encapsulation;
    var e := Encapsulation(localPort, peerPort, datagram);
    EncapsulationParts(localPort, peerPort, datagram);
    var addr, encap := Tlv(IPV6_ADDRESS, peerAddr), Tlv(UDP_ENCAPSULATION, e);
    NothingParses();
    AppendOneTlv([], addr, map[]);
    assert [] + TlvBytes(addr) == TlvBytes(addr);
    AppendOneTlv(TlvBytes(addr), encap, map[IPV6_ADDRESS := peerAddr]);
  }
}
