/**
 End to end: a dataset encoded into a request, serialised, wrapped into a UDP_TX
 message, serialised again, and undone step by step on the other side.
 */
module Wire {
  import opened Outcomes
  import opened Bytes
  import opened Tlv
  import opened Datasets
  import opened DatasetCodec
  import opened DatasetRoundTrip
  import opened CoapOption
  import opened CoapMessage
  import opened ServiceUri
  import opened UdpProxy

  /** What reaches the far side when `request` is proxied inside a UDP_TX message with header `h`. */
  function Proxied(request: Message, h: Header, peerAddr: ByteArray, localPort: Word, peerPort: Word): Outcome<Message>
    requires request.header.TokenFits() && h.TokenFits()
  {
    var datagram :- MessageBytes(request);
    var bytes :- MessageBytes(UdpTx(peerAddr, localPort, peerPort, datagram).(header := h));
    var received :- ParseMessage(bytes);
    var packet :- Decapsulated(received.payload);
    ParseMessage(packet.datagram)
  }

  lemma RequestSize(h: Header, c: Letter, x: Letter, y: Letter, payload: ByteArray)
    requires h.IsValid() && h.TokenFits()
    ensures var r := MessageBytes(Message(h, map[URI_PATH := Service(c, x, y)], payload));
            r.Ok? && |r.value| <= 18 + |payload|
  {
    hide OptionsBytes, Service;
    PathSerialises(c, x, y);
  }

  /** Every service request whose payload fits a UDP encapsulation arrives unchanged. */
  lemma ProxiedRequest(inner: Header, c: Letter, x: Letter, y: Letter, payload: ByteArray, h: Header,
                       peerAddr: ByteArray, localPort: Word, peerPort: Word)
    requires inner.IsValid() && inner.TokenFits() && h.IsValid() && h.TokenFits()
    requires |peerAddr| == IPV6_SIZE && |payload| < 0x1_0000 - 22
    ensures var request := Message(inner, map[URI_PATH := Service(c, x, y)], payload);
            Proxied(request, h, peerAddr, localPort, peerPort) == Ok(request)
  {
    hide MessageBytes, ParseMessage, Service, UdpTxPayload, Decapsulated;
    var request := Message(inner, map[URI_PATH := Service(c, x, y)], payload);
    RequestSize(inner, c, x, y, payload);
    RequestRoundTrip(inner, c, x, y, payload);
    var datagram := MessageBytes(request).value;
    RequestRoundTrip(h, 99, 117, 116, UdpTxPayload(peerAddr, localPort, peerPort, datagram));
    DecapsulateEncapsulated(peerAddr, localPort, peerPort, datagram);
  }

  lemma FieldSize(typ: Byte, value: ByteArray)
    requires IsValid(MeshCoP, typ, value) && !IsExtendedTlv(typ) && typ != DOMAIN_PREFIX
    ensures |TlvBytes(Tlv(typ, value))| <= 256
  {
  }

  lemma {:induction false} EncodedSize(payload: ByteArray, fields: seq<Field>)
    requires EncodeFields(payload, fields).Ok?
    requires forall f :: f in fields ==> f.typ != DOMAIN_PREFIX && !IsExtendedTlv(f.typ)
    ensures |EncodeFields(payload, fields).value| <= |payload| + 256 * |fields|
    decreases |fields|
  {
    hide IsValid, TlvBytes, IsExtendedTlv;
    if fields == [] {
    } else {
      var f := fields[0];
      assert f in fields;
      if f.present {
        FieldSize(f.typ, f.value.value);
        EncodedSize(payload + TlvBytes(Tlv(f.typ, f.value.value)), fields[1..]);
      } else {
        EncodedSize(payload, fields[1..]);
      }
    }
  }

  lemma NoExtendedActive(d: ActiveDataset)
    ensures |ActiveFields(d)| == 10 && forall f :: f in ActiveFields(d) ==> !IsExtendedTlv(f.typ)
  {
    hide Has, BigEndian, EncodeTimestamp, MaskBytes;
  }

  lemma NoExtendedPending(d: PendingDataset)
    ensures |PendingFields(d)| == 12 && forall f :: f in PendingFields(d) ==> !IsExtendedTlv(f.typ)
  {
    hide Has, BigEndian, EncodeTimestamp, ActiveFields, IsExtendedTlv;
    NoExtendedActive(d.active);
    assert !IsExtendedTlv(DELAY_TIMER) && !IsExtendedTlv(PENDING_TIMESTAMP) by { NoExtendedTimers(); }
  }

  lemma NoExtendedTimers()
    ensures !IsExtendedTlv(DELAY_TIMER) && !IsExtendedTlv(PENDING_TIMESTAMP)
  {
  }

  lemma NoExtendedCommissioner(d: CommissionerDataset)
    ensures |CommissionerFields(d)| == 8 && forall f :: f in CommissionerFields(d) ==> !IsExtendedTlv(f.typ)
  {
    hide Has, BigEndian;
  }

  lemma SessionIsShort(sessionId: Word)
    ensures SessionField(sessionId).typ != DOMAIN_PREFIX && !IsExtendedTlv(SessionField(sessionId).typ)
  {
  }

  /** Behind the session id, an Active dataset that can be encoded arrives with its present fields and known flags. */
  lemma ActiveDatasetArrives(sessionId: Word, d: ActiveDataset, payload: ByteArray, inner: Header, h: Header,
                             peerAddr: ByteArray, localPort: Word, peerPort: Word,
                             blank: ActiveDataset, before: ActiveDataset)
    requires EncodeFields([], [SessionField(sessionId)] + ActiveFields(d)) == Ok(payload)
    requires inner.IsValid() && inner.TokenFits() && h.IsValid() && h.TokenFits() && |peerAddr| == IPV6_SIZE
    ensures var request := Message(inner, map[URI_PATH := MGMT_ACTIVE_SET], payload);
            var received := Proxied(request, h, peerAddr, localPort, peerPort);
            && received == Ok(request)
            && DecodedActive(blank, before, received.value.payload).error == None
            && DecodedActive(blank, before, received.value.payload).dataset.flags == Known(d.flags, ACTIVE_BITS)
            && SameActive(d, DecodedActive(blank, before, received.value.payload).dataset)
  {
    hide ActiveFields, SessionField, EncodeFields, DecodedActive, SameActive, Known, IsExtendedTlv, Proxied, Service;
    ActiveFieldTypes(d);
    NoExtendedActive(d);
    SessionIsShort(sessionId);
    EncodedSize([], [SessionField(sessionId)] + ActiveFields(d));
    ProxiedRequest(inner, 99, 97, 115, payload, h, peerAddr, localPort, peerPort);
    ActiveRequestRoundTrip(sessionId, d, payload, blank, before);
  }

  lemma PendingDatasetArrives(sessionId: Word, d: PendingDataset, payload: ByteArray, inner: Header, h: Header,
                              peerAddr: ByteArray, localPort: Word, peerPort: Word,
                              blanks: Blanks, before: PendingDataset)
    requires EncodeFields([], [SessionField(sessionId)] + PendingFields(d)) == Ok(payload)
    requires inner.IsValid() && inner.TokenFits() && h.IsValid() && h.TokenFits() && |peerAddr| == IPV6_SIZE
    ensures var request := Message(inner, map[URI_PATH := MGMT_PENDING_SET], payload);
            var received := Proxied(request, h, peerAddr, localPort, peerPort);
            && received == Ok(request)
            && DecodedPending(blanks, before, received.value.payload).error == None
            && DecodedPending(blanks, before, received.value.payload).dataset.active.flags
               == Known(d.active.flags, PENDING_BITS)
            && SamePending(d, DecodedPending(blanks, before, received.value.payload).dataset)
  {
    hide PendingFields, SessionField, EncodeFields, DecodedPending, SamePending, Known, IsExtendedTlv, Proxied, Service;
    PendingFieldTypes(d);
    NoExtendedPending(d);
    SessionIsShort(sessionId);
    EncodedSize([], [SessionField(sessionId)] + PendingFields(d));
    ProxiedRequest(inner, 99, 112, 115, payload, h, peerAddr, localPort, peerPort);
    PendingRequestRoundTrip(sessionId, d, payload, blanks, before);
  }

  /** The session id in front of a Commissioner dataset is its own first field. */
  lemma CommissionerDatasetArrives(d: CommissionerDataset, payload: ByteArray, inner: Header, h: Header,
                                   peerAddr: ByteArray, localPort: Word, peerPort: Word, before: CommissionerDataset)
    requires EncodeFields([], CommissionerFields(d)) == Ok(payload)
    requires inner.IsValid() && inner.TokenFits() && h.IsValid() && h.TokenFits() && |peerAddr| == IPV6_SIZE
    ensures var request := Message(inner, map[URI_PATH := MGMT_COMMISSIONER_SET], payload);
            var received := Proxied(request, h, peerAddr, localPort, peerPort);
            && received == Ok(request)
            && DecodedCommissioner(before, received.value.payload).error == None
            && DecodedCommissioner(before, received.value.payload).dataset.flags == Known(d.flags, COMMISSIONER_BITS)
            && SameCommissioner(d, DecodedCommissioner(before, received.value.payload).dataset)
  {
    hide CommissionerFields, EncodeFields, DecodedCommissioner, SameCommissioner, Known, IsExtendedTlv, Proxied, Service;
    CommissionerFieldTypes(d);
    NoExtendedCommissioner(d);
    EncodedSize([], CommissionerFields(d));
    ProxiedRequest(inner, 99, 99, 115, payload, h, peerAddr, localPort, peerPort);
    CommissionerRoundTrip(d, payload, before);
  }
}
