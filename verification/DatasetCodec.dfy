/**
 Encoding datasets into the payload of a request and decoding them from the payload
 of a response, as src/library/commissioner_impl.cpp does.
 */
module DatasetCodec {
  import opened Outcomes
  import opened Bytes
  import opened Tlv
  import opened Datasets

  // ---------------------------------------------------------------------------
  // Encoding
  // ---------------------------------------------------------------------------

  /** The fields of an Active dataset in the order they are encoded in. */
  function ActiveFields(d: ActiveDataset): seq<Field> {
    [ Field(Has(d.flags, ACTIVE_TIMESTAMP_BIT), ACTIVE_TIMESTAMP, Ok(BigEndian(8, EncodeTimestamp(d.activeTimestamp)))),
      Field(Has(d.flags, CHANNEL_BIT), CHANNEL, Ok([d.channel.page] + BigEndian(2, d.channel.number))),
      Field(Has(d.flags, CHANNEL_MASK_BIT), CHANNEL_MASK, MaskBytes(d.channelMask)),
      Field(Has(d.flags, EXTENDED_PAN_ID_BIT), EXTENDED_PAN_ID, Ok(d.extendedPanId)),
      Field(Has(d.flags, MESH_LOCAL_PREFIX_BIT), NETWORK_MESH_LOCAL_PREFIX, Ok(d.meshLocalPrefix)),
      Field(Has(d.flags, NETWORK_MASTER_KEY_BIT), NETWORK_MASTER_KEY, Ok(d.networkMasterKey)),
      Field(Has(d.flags, NETWORK_NAME_BIT), NETWORK_NAME, Ok(d.networkName)),
      Field(Has(d.flags, PAN_ID_BIT), PAN_ID, Ok(BigEndian(2, d.panId))),
      Field(Has(d.flags, PSKC_BIT), PSKC, Ok(d.pskc)),
      Field(Has(d.flags, SECURITY_POLICY_BIT), SECURITY_POLICY,
            Ok(BigEndian(2, d.securityPolicy.rotationTime) + d.securityPolicy.flags)) ]
  }

  function PendingOnlyFields(d: PendingDataset): seq<Field> {
    [ Field(Has(d.active.flags, DELAY_TIMER_BIT), DELAY_TIMER, Ok(BigEndian(4, d.delayTimer))),
      Field(Has(d.active.flags, PENDING_TIMESTAMP_BIT), PENDING_TIMESTAMP,
            Ok(BigEndian(8, EncodeTimestamp(d.pendingTimestamp)))) ]
  }

  function PendingFields(d: PendingDataset): seq<Field> {
    ActiveFields(d.active) + PendingOnlyFields(d)
  }

  function CommissionerFields(d: CommissionerDataset): seq<Field> {
    [ Field(Has(d.flags, SESSION_ID_BIT), COMMISSIONER_SESSION_ID, Ok(BigEndian(2, d.sessionId))),
      Field(Has(d.flags, BORDER_AGENT_LOCATOR_BIT), BORDER_AGENT_LOCATOR, Ok(BigEndian(2, d.borderAgentLocator))),
      Field(Has(d.flags, STEERING_DATA_BIT), STEERING_DATA, Ok(d.steeringData)),
      Field(Has(d.flags, AE_STEERING_DATA_BIT), AE_STEERING_DATA, Ok(d.aeSteeringData)),
      Field(Has(d.flags, NMKP_STEERING_DATA_BIT), NMKP_STEERING_DATA, Ok(d.nmkpSteeringData)),
      Field(Has(d.flags, JOINER_UDP_PORT_BIT), JOINER_UDP_PORT, Ok(BigEndian(2, d.joinerUdpPort))),
      Field(Has(d.flags, AE_UDP_PORT_BIT), AE_UDP_PORT, Ok(BigEndian(2, d.aeUdpPort))),
      Field(Has(d.flags, NMKP_UDP_PORT_BIT), NMKP_UDP_PORT, Ok(BigEndian(2, d.nmkpUdpPort))) ]
  }

  /** Where encoding stands: `fields` are still to be appended, unless it has failed. */
  function Resume(r: Outcome<ByteArray>, fields: seq<Field>): Outcome<ByteArray> {
    if r.Ok? then EncodeFields(r.value, fields) else r
  }

  lemma ResumeNothing(r: Outcome<ByteArray>)
    ensures Resume(r, []) == r
  {
  }

  /** Append field `k` of a table if it is present and nothing has failed so far. */
  method AppendField(r: Outcome<ByteArray>, present: bool, typ: Byte, value: Outcome<ByteArray>,
                     ghost fields: seq<Field>, ghost k: nat)
    returns (out: Outcome<ByteArray>)
    requires k < |fields| && fields[k] == Field(present, typ, value)
    ensures Resume(out, fields[k + 1..]) == Resume(r, fields[k..])
  {
    assert fields[k..][1..] == fields[k + 1..];
    if !r.Ok? || !present {
      return r;
    }
    if !value.Ok? {
      return value.PropagateFailure();
    }
    out := AppendTlv(r.value, Tlv(typ, value.value));
  }

  /**
   `CommissionerImpl::EncodeActiveOperationalDataset`, on the payload of the request.
   `more` stands for the fields that the caller will append afterwards.
   */
  method EncodeActive(payload: ByteArray, d: ActiveDataset, ghost more: seq<Field>) returns (r: Outcome<ByteArray>)
    ensures Resume(r, more) == EncodeFields(payload, ActiveFields(d) + more)
  {
    hide EncodeFields, BigEndian, MaskBytes, EncodeTimestamp, Has;
    ghost var f := ActiveFields(d) + more;
    r := Ok(payload);
    assert f[0..] == f;
    var timestamp := Ok(BigEndian(8, EncodeTimestamp(d.activeTimestamp)));
    r := AppendField(r, Has(d.flags, ACTIVE_TIMESTAMP_BIT), ACTIVE_TIMESTAMP, timestamp, f, 0);
    var channel := Ok([d.channel.page] + BigEndian(2, d.channel.number));
    r := AppendField(r, Has(d.flags, CHANNEL_BIT), CHANNEL, channel, f, 1);
    var mask := EncodeChannelMask(d.channelMask);
    r := AppendField(r, Has(d.flags, CHANNEL_MASK_BIT), CHANNEL_MASK, mask, f, 2);
    r := AppendField(r, Has(d.flags, EXTENDED_PAN_ID_BIT), EXTENDED_PAN_ID, Ok(d.extendedPanId), f, 3);
    r := AppendField(r, Has(d.flags, MESH_LOCAL_PREFIX_BIT), NETWORK_MESH_LOCAL_PREFIX, Ok(d.meshLocalPrefix), f, 4);
    r := AppendField(r, Has(d.flags, NETWORK_MASTER_KEY_BIT), NETWORK_MASTER_KEY, Ok(d.networkMasterKey), f, 5);
    r := AppendField(r, Has(d.flags, NETWORK_NAME_BIT), NETWORK_NAME, Ok(d.networkName), f, 6);
    r := AppendField(r, Has(d.flags, PAN_ID_BIT), PAN_ID, Ok(BigEndian(2, d.panId)), f, 7);
    r := AppendField(r, Has(d.flags, PSKC_BIT), PSKC, Ok(d.pskc), f, 8);
    var policy := Ok(BigEndian(2, d.securityPolicy.rotationTime) + d.securityPolicy.flags);
    r := AppendField(r, Has(d.flags, SECURITY_POLICY_BIT), SECURITY_POLICY, policy, f, 9);
    assert f[10..] == more;
  }

  /** `CommissionerImpl::EncodePendingOperationalDataset`. */
  method EncodePending(payload: ByteArray, d: PendingDataset) returns (r: Outcome<ByteArray>)
    ensures r == EncodeFields(payload, PendingFields(d))
  {
    hide EncodeFields, BigEndian, EncodeTimestamp, Has, ActiveFields;
    ghost var f := PendingOnlyFields(d);
    assert f[0..] == f;
    r := EncodeActive(payload, d.active, f);
    r := AppendField(r, Has(d.active.flags, DELAY_TIMER_BIT), DELAY_TIMER, Ok(BigEndian(4, d.delayTimer)), f, 0);
    var timestamp := Ok(BigEndian(8, EncodeTimestamp(d.pendingTimestamp)));
    r := AppendField(r, Has(d.active.flags, PENDING_TIMESTAMP_BIT), PENDING_TIMESTAMP, timestamp, f, 1);
    assert f[2..] == [];
    ResumeNothing(r);
  }

  /** `CommissionerImpl::EncodeCommissionerDataset`. */
  method EncodeCommissioner(payload: ByteArray, d: CommissionerDataset) returns (r: Outcome<ByteArray>)
    ensures r == EncodeFields(payload, CommissionerFields(d))
  {
    hide EncodeFields, BigEndian, Has;
    ghost var f := CommissionerFields(d);
    r := Ok(payload);
    assert f[0..] == f;
    r := AppendField(r, Has(d.flags, SESSION_ID_BIT), COMMISSIONER_SESSION_ID, Ok(BigEndian(2, d.sessionId)), f, 0);
    var locator := Ok(BigEndian(2, d.borderAgentLocator));
    r := AppendField(r, Has(d.flags, BORDER_AGENT_LOCATOR_BIT), BORDER_AGENT_LOCATOR, locator, f, 1);
    r := AppendField(r, Has(d.flags, STEERING_DATA_BIT), STEERING_DATA, Ok(d.steeringData), f, 2);
    r := AppendField(r, Has(d.flags, AE_STEERING_DATA_BIT), AE_STEERING_DATA, Ok(d.aeSteeringData), f, 3);
    r := AppendField(r, Has(d.flags, NMKP_STEERING_DATA_BIT), NMKP_STEERING_DATA, Ok(d.nmkpSteeringData), f, 4);
    r := AppendField(r, Has(d.flags, JOINER_UDP_PORT_BIT), JOINER_UDP_PORT, Ok(BigEndian(2, d.joinerUdpPort)), f, 5);
    r := AppendField(r, Has(d.flags, AE_UDP_PORT_BIT), AE_UDP_PORT, Ok(BigEndian(2, d.aeUdpPort)), f, 6);
    r := AppendField(r, Has(d.flags, NMKP_UDP_PORT_BIT), NMKP_UDP_PORT, Ok(BigEndian(2, d.nmkpUdpPort)), f, 7);
    assert f[8..] == [];
    ResumeNothing(r);
  }

  // ---------------------------------------------------------------------------
  // Decoding
  // ---------------------------------------------------------------------------

  /** What reading a TLV set from the wire guarantees, and the decoders rely on. */
  ghost predicate AllValid(tlvs: TlvSet) {
    forall t :: t in tlvs ==> IsValid(MeshCoP, t, tlvs[t])
  }

  const WORDS: set<Byte> :=
    {PAN_ID, COMMISSIONER_SESSION_ID, BORDER_AGENT_LOCATOR, JOINER_UDP_PORT, AE_UDP_PORT, NMKP_UDP_PORT}

  lemma FieldLengths(tlvs: TlvSet)
    requires AllValid(tlvs)
    ensures CHANNEL in tlvs ==> |tlvs[CHANNEL]| == 3
    ensures SECURITY_POLICY in tlvs ==> 3 <= |tlvs[SECURITY_POLICY]| <= 4
    ensures DELAY_TIMER in tlvs ==> |tlvs[DELAY_TIMER]| == 4
    ensures forall t :: t in {ACTIVE_TIMESTAMP, PENDING_TIMESTAMP} && t in tlvs ==> |tlvs[t]| == 8
    ensures forall t :: t in WORDS && t in tlvs ==> |tlvs[t]| == 2
  {
  }

  /** The present-flags after a field has been looked for in the TLV set. */
  function Mark(flags: bv16, tlvs: TlvSet, typ: Byte, bit: bv16): bv16 {
    if typ in tlvs then With(flags, bit) else flags
  }

  function ActiveFlags(tlvs: TlvSet): bv16 {
    var flags := Mark(0, tlvs, ACTIVE_TIMESTAMP, ACTIVE_TIMESTAMP_BIT);
    var flags := Mark(flags, tlvs, CHANNEL, CHANNEL_BIT);
    var flags := Mark(flags, tlvs, CHANNEL_MASK, CHANNEL_MASK_BIT);
    var flags := Mark(flags, tlvs, EXTENDED_PAN_ID, EXTENDED_PAN_ID_BIT);
    var flags := Mark(flags, tlvs, NETWORK_MESH_LOCAL_PREFIX, MESH_LOCAL_PREFIX_BIT);
    var flags := Mark(flags, tlvs, NETWORK_MASTER_KEY, NETWORK_MASTER_KEY_BIT);
    var flags := Mark(flags, tlvs, NETWORK_NAME, NETWORK_NAME_BIT);
    var flags := Mark(flags, tlvs, PAN_ID, PAN_ID_BIT);
    var flags := Mark(flags, tlvs, PSKC, PSKC_BIT);
    Mark(flags, tlvs, SECURITY_POLICY, SECURITY_POLICY_BIT)
  }

  function CommissionerFlags(tlvs: TlvSet): bv16 {
    var flags := Mark(0, tlvs, COMMISSIONER_SESSION_ID, SESSION_ID_BIT);
    var flags := Mark(flags, tlvs, BORDER_AGENT_LOCATOR, BORDER_AGENT_LOCATOR_BIT);
    var flags := Mark(flags, tlvs, STEERING_DATA, STEERING_DATA_BIT);
    var flags := Mark(flags, tlvs, AE_STEERING_DATA, AE_STEERING_DATA_BIT);
    var flags := Mark(flags, tlvs, NMKP_STEERING_DATA, NMKP_STEERING_DATA_BIT);
    var flags := Mark(flags, tlvs, JOINER_UDP_PORT, JOINER_UDP_PORT_BIT);
    var flags := Mark(flags, tlvs, AE_UDP_PORT, AE_UDP_PORT_BIT);
    Mark(flags, tlvs, NMKP_UDP_PORT, NMKP_UDP_PORT_BIT)
  }

  function ValueOf(tlvs: TlvSet, typ: Byte): ByteArray {
    if typ in tlvs then tlvs[typ] else []
  }

  /** A 16-bit field; the decoder reads the first two bytes. */
  function WordOf(tlvs: TlvSet, typ: Byte, absent: Word): Word
    requires typ in tlvs ==> |tlvs[typ]| >= 2
  {
    if typ in tlvs then Pair(tlvs[typ][0], tlvs[typ][1]) else absent
  }

  function TimestampOf(tlvs: TlvSet, typ: Byte, absent: Timestamp): Timestamp
    requires typ in tlvs ==> |tlvs[typ]| == 8
  {
    if typ !in tlvs then absent
    else
      BigEndianOfValue(tlvs[typ]);
      Widths();
      DecodeTimestamp(Value(tlvs[typ]))
  }

  predicate MaskIsWellFormed(tlvs: TlvSet) {
    CHANNEL_MASK in tlvs ==> ParseMask(tlvs[CHANNEL_MASK]).Ok?
  }

  function ChannelOf(tlvs: TlvSet, absent: Channel): Channel
    requires AllValid(tlvs)
  {
    if CHANNEL in tlvs then Channel(tlvs[CHANNEL][0], Pair(tlvs[CHANNEL][1], tlvs[CHANNEL][2])) else absent
  }

  function MaskOf(tlvs: TlvSet): ChannelMask
    requires MaskIsWellFormed(tlvs)
  {
    if CHANNEL_MASK in tlvs then ParseMask(tlvs[CHANNEL_MASK]).value else []
  }

  function PolicyOf(tlvs: TlvSet, absent: SecurityPolicy): SecurityPolicy
    requires AllValid(tlvs)
  {
    if SECURITY_POLICY !in tlvs then absent
    else SecurityPolicy(WordOf(tlvs, SECURITY_POLICY, 0), tlvs[SECURITY_POLICY][2..])
  }

  /**
   The Active dataset that a TLV set describes. An absent field keeps what a new dataset happens to
   hold: byte strings are empty, the timestamp is the current time, and numbers are not initialised.
   */
  function ActiveOf(blank: ActiveDataset, tlvs: TlvSet): ActiveDataset
    requires AllValid(tlvs) && MaskIsWellFormed(tlvs)
  {
    ActiveDataset(
      TimestampOf(tlvs, ACTIVE_TIMESTAMP, blank.activeTimestamp),
      ChannelOf(tlvs, blank.channel), MaskOf(tlvs),
      ValueOf(tlvs, EXTENDED_PAN_ID), ValueOf(tlvs, NETWORK_MESH_LOCAL_PREFIX), ValueOf(tlvs, NETWORK_MASTER_KEY),
      ValueOf(tlvs, NETWORK_NAME), WordOf(tlvs, PAN_ID, blank.panId), ValueOf(tlvs, PSKC),
      PolicyOf(tlvs, blank.securityPolicy), ActiveFlags(tlvs))
  }

  /** The TLV set of a payload. */
  function SetOf(payload: ByteArray): (r: Outcome<TlvSet>)
    ensures r.Ok? ==> AllValid(r.value)
  {
    var r := ParseTlvs(MeshCoP, payload, map[]);
    assert r.Ok? ==> AllValid(r.value) by {
      if r.Ok? {
        ParsedTlvsAreValid(MeshCoP, payload, map[]);
      }
    }
    r
  }

  /** `GetTlv`: the TLV of one type, if the buffer parses and holds a valid one. */
  method GetTlv(typ: Byte, aBuf: ByteArray) returns (r: Option<ByteArray>)
    ensures r == if SetOf(aBuf).Ok? && typ in SetOf(aBuf).value then Some(SetOf(aBuf).value[typ]) else None
  {
    hide IsValid, ParseTlvs;
    var tlvs := GetTlvSet(MeshCoP, aBuf);
    assert tlvs == SetOf(aBuf);
    if !tlvs.Ok? || typ !in tlvs.value {
      return None;
    }
    r := Some(tlvs.value[typ]);
  }

  datatype Decoded<T> = Decoded(error: Option<ErrorCode>, dataset: T)

  /**
   What decoding an Active dataset over `before` gives, by way of a new dataset `blank`. The error of
   a malformed channel mask is dropped: the decoder then reports success and changes nothing.
   */
  function DecodedActive(blank: ActiveDataset, before: ActiveDataset, payload: ByteArray): Decoded<ActiveDataset> {
    var tlvs := SetOf(payload);
    if !tlvs.Ok? then Decoded(Some(BadFormat), before)
    else if !MaskIsWellFormed(tlvs.value) then Decoded(None, before)
    else Decoded(None, ActiveOf(blank, tlvs.value))
  }

  /** Two new datasets are made: one here, and one where the Active fields are decoded. */
  datatype Blanks = Blanks(pending: PendingDataset, active: ActiveDataset)

  /** The malformed mask does not stop the Pending decoder: it goes on without the Active fields. */
  function DecodedPending(blanks: Blanks, before: PendingDataset, payload: ByteArray): Decoded<PendingDataset> {
    var tlvs := SetOf(payload);
    if !tlvs.Ok? then Decoded(Some(BadFormat), before)
    else
      var active := DecodedActive(blanks.active, blanks.pending.active.(flags := 0), payload).dataset;
      Decoded(None, PendingOf(blanks.pending, active, tlvs.value))
  }

  function PendingOf(blank: PendingDataset, active: ActiveDataset, tlvs: TlvSet): PendingDataset
    requires AllValid(tlvs)
  {
    PendingDataset(
      active.(flags := Mark(Mark(active.flags, tlvs, DELAY_TIMER, DELAY_TIMER_BIT), tlvs, PENDING_TIMESTAMP,
                            PENDING_TIMESTAMP_BIT)),
      DelayOf(tlvs, blank.delayTimer), TimestampOf(tlvs, PENDING_TIMESTAMP, blank.pendingTimestamp))
  }

  function DelayOf(tlvs: TlvSet, absent: Uint32): Uint32
    requires DELAY_TIMER in tlvs ==> |tlvs[DELAY_TIMER]| == 4
  {
    if DELAY_TIMER !in tlvs then absent
    else
      BigEndianOfValue(tlvs[DELAY_TIMER]);
      Widths();
      Value(tlvs[DELAY_TIMER])
  }

  function CommissionerOf(tlvs: TlvSet): CommissionerDataset
    requires AllValid(tlvs)
  {
    CommissionerDataset(
      WordOf(tlvs, BORDER_AGENT_LOCATOR, 0), WordOf(tlvs, COMMISSIONER_SESSION_ID, 0), ValueOf(tlvs, STEERING_DATA),
      ValueOf(tlvs, AE_STEERING_DATA), ValueOf(tlvs, NMKP_STEERING_DATA), WordOf(tlvs, JOINER_UDP_PORT, 0),
      WordOf(tlvs, AE_UDP_PORT, 0), WordOf(tlvs, NMKP_UDP_PORT, 0),
      CommissionerFlags(tlvs))
  }

  function DecodedCommissioner(before: CommissionerDataset, payload: ByteArray): Decoded<CommissionerDataset> {
    var tlvs := SetOf(payload);
    if !tlvs.Ok? then Decoded(Some(BadFormat), before) else Decoded(None, CommissionerOf(tlvs.value))
  }

  /** The value of a TLV, if it is there, and the flags with its bit. */
  method TakeValue(tlvs: TlvSet, typ: Byte, bit: bv16, flagsIn: bv16) returns (value: ByteArray, flags: bv16)
    ensures value == ValueOf(tlvs, typ) && flags == Mark(flagsIn, tlvs, typ, bit)
  {
    value, flags := [], flagsIn;
    if typ in tlvs {
      value, flags := tlvs[typ], With(flags, bit);
    }
  }

  method TakeWord(tlvs: TlvSet, typ: Byte, bit: bv16, absent: Word, flagsIn: bv16) returns (value: Word, flags: bv16)
    requires typ in tlvs ==> |tlvs[typ]| == 2
    ensures value == WordOf(tlvs, typ, absent) && flags == Mark(flagsIn, tlvs, typ, bit)
  {
    value, flags := absent, flagsIn;
    if typ in tlvs {
      value, flags := Pair(tlvs[typ][0], tlvs[typ][1]), With(flags, bit);
    }
  }

  method TakeTimestamp(tlvs: TlvSet, typ: Byte, bit: bv16, absent: Timestamp, flagsIn: bv16)
    returns (value: Timestamp, flags: bv16)
    requires typ in tlvs ==> |tlvs[typ]| == 8
    ensures value == TimestampOf(tlvs, typ, absent) && flags == Mark(flagsIn, tlvs, typ, bit)
  {
    value, flags := absent, flagsIn;
    if typ in tlvs {
      var number := Decode(tlvs[typ], 8);
      assert tlvs[typ][..8] == tlvs[typ];
      value, flags := DecodeTimestamp(number), With(flags, bit);
    }
  }

  method TakeChannel(tlvs: TlvSet, absent: Channel, flagsIn: bv16) returns (channel: Channel, flags: bv16)
    requires AllValid(tlvs)
    ensures channel == ChannelOf(tlvs, absent) && flags == Mark(flagsIn, tlvs, CHANNEL, CHANNEL_BIT)
  {
    channel, flags := absent, flagsIn;
    if CHANNEL in tlvs {
      var value := tlvs[CHANNEL];
      channel, flags := Channel(value[0], Pair(value[1], value[2])), With(flags, CHANNEL_BIT);
    }
  }

  method TakeChannelMask(tlvs: TlvSet, flagsIn: bv16) returns (mask: Outcome<ChannelMask>, flags: bv16)
    ensures mask.Ok? <==> MaskIsWellFormed(tlvs)
    ensures mask.Ok? ==> mask.value == MaskOf(tlvs) && flags == Mark(flagsIn, tlvs, CHANNEL_MASK, CHANNEL_MASK_BIT)
  {
    mask, flags := Ok([]), flagsIn;
    if CHANNEL_MASK in tlvs {
      mask := DecodeChannelMask(tlvs[CHANNEL_MASK]);
      flags := With(flags, CHANNEL_MASK_BIT);
    }
  }

  method TakeSecurityPolicy(tlvs: TlvSet, absent: SecurityPolicy, flagsIn: bv16)
    returns (policy: SecurityPolicy, flags: bv16)
    requires AllValid(tlvs)
    ensures policy == PolicyOf(tlvs, absent) && flags == Mark(flagsIn, tlvs, SECURITY_POLICY, SECURITY_POLICY_BIT)
  {
    policy, flags := absent, flagsIn;
    if SECURITY_POLICY in tlvs {
      var value := tlvs[SECURITY_POLICY];
      policy, flags := SecurityPolicy(Pair(value[0], value[1]), value[2..]), With(flags, SECURITY_POLICY_BIT);
    }
  }

  /** `CommissionerImpl::DecodeActiveOperationalDataset`. */
  method DecodeActive(blank: ActiveDataset, before: ActiveDataset, payload: ByteArray)
    returns (error: Option<ErrorCode>, dataset: ActiveDataset)
    ensures Decoded(error, dataset) == DecodedActive(blank, before, payload)
  {
    hide ParseTlvs, IsValid, AllValid, WordOf, TimestampOf, ValueOf, ChannelOf, MaskOf, PolicyOf, Mark, MaskIsWellFormed;
    var r := GetTlvSet(MeshCoP, payload);
    assert r == SetOf(payload);
    if !r.Ok? {
      return Some(BadFormat), before;
    }
    var tlvs := r.value;
    FieldLengths(tlvs);
    var activeTimestamp, flags :=
      TakeTimestamp(tlvs, ACTIVE_TIMESTAMP, ACTIVE_TIMESTAMP_BIT, blank.activeTimestamp, 0);
    var channel, mask, extendedPanId, meshLocalPrefix, networkMasterKey, networkName, panId, pskc, securityPolicy;
    channel, flags := TakeChannel(tlvs, blank.channel, flags);
    mask, flags := TakeChannelMask(tlvs, flags);
    if !mask.Ok? {
      return None, before;
    }
    extendedPanId, flags := TakeValue(tlvs, EXTENDED_PAN_ID, EXTENDED_PAN_ID_BIT, flags);
    meshLocalPrefix, flags := TakeValue(tlvs, NETWORK_MESH_LOCAL_PREFIX, MESH_LOCAL_PREFIX_BIT, flags);
    networkMasterKey, flags := TakeValue(tlvs, NETWORK_MASTER_KEY, NETWORK_MASTER_KEY_BIT, flags);
    networkName, flags := TakeValue(tlvs, NETWORK_NAME, NETWORK_NAME_BIT, flags);
    panId, flags := TakeWord(tlvs, PAN_ID, PAN_ID_BIT, blank.panId, flags);
    pskc, flags := TakeValue(tlvs, PSKC, PSKC_BIT, flags);
    securityPolicy, flags := TakeSecurityPolicy(tlvs, blank.securityPolicy, flags);
    error, dataset := None, ActiveDataset(activeTimestamp, channel, mask.value, extendedPanId, meshLocalPrefix,
                                          networkMasterKey, networkName, panId, pskc, securityPolicy, flags);
  }

  /** `CommissionerImpl::DecodePendingOperationalDataset`. */
  method DecodePending(blanks: Blanks, before: PendingDataset, payload: ByteArray)
    returns (error: Option<ErrorCode>, dataset: PendingDataset)
    ensures Decoded(error, dataset) == DecodedPending(blanks, before, payload)
  {
    hide ParseTlvs, IsValid, AllValid, TimestampOf, Mark, ActiveOf, MaskIsWellFormed, DelayOf;
    var r := GetTlvSet(MeshCoP, payload);
    assert r == SetOf(payload);
    if !r.Ok? {
      return Some(BadFormat), before;
    }
    var tlvs := r.value;
    FieldLengths(tlvs);
    var activeError, active := DecodeActive(blanks.active, blanks.pending.active.(flags := 0), payload);
    assert activeError == None;
    var blank, flags := blanks.pending, active.flags;
    var delayTimer, pendingTimestamp;
    delayTimer, flags := TakeDelayTimer(tlvs, blank.delayTimer, flags);
    pendingTimestamp, flags :=
      TakeTimestamp(tlvs, PENDING_TIMESTAMP, PENDING_TIMESTAMP_BIT, blank.pendingTimestamp, flags);
    error, dataset := None, PendingDataset(active.(flags := flags), delayTimer, pendingTimestamp);
  }

  method TakeDelayTimer(tlvs: TlvSet, absent: Uint32, flagsIn: bv16) returns (value: Uint32, flags: bv16)
    requires DELAY_TIMER in tlvs ==> |tlvs[DELAY_TIMER]| == 4
    ensures value == DelayOf(tlvs, absent) && flags == Mark(flagsIn, tlvs, DELAY_TIMER, DELAY_TIMER_BIT)
  {
    value, flags := absent, flagsIn;
    if DELAY_TIMER in tlvs {
      var number := Decode(tlvs[DELAY_TIMER], 4);
      assert tlvs[DELAY_TIMER][..4] == tlvs[DELAY_TIMER];
      Widths();
      value, flags := number, With(flags, DELAY_TIMER_BIT);
    }
  }

  /** `CommissionerImpl::DecodeCommissionerDataset`. */
  method DecodeCommissioner(before: CommissionerDataset, payload: ByteArray)
    returns (error: Option<ErrorCode>, dataset: CommissionerDataset)
    ensures Decoded(error, dataset) == DecodedCommissioner(before, payload)
  {
    hide ParseTlvs, IsValid, AllValid, WordOf, ValueOf, Mark;
    var r := GetTlvSet(MeshCoP, payload);
    assert r == SetOf(payload);
    if !r.Ok? {
      return Some(BadFormat), before;
    }
    var tlvs := r.value;
    FieldLengths(tlvs);
    var sessionId, flags := TakeWord(tlvs, COMMISSIONER_SESSION_ID, SESSION_ID_BIT, 0, 0);
    var locator, steeringData, aeSteeringData, nmkpSteeringData, joinerUdpPort, aeUdpPort, nmkpUdpPort;
    locator, flags := TakeWord(tlvs, BORDER_AGENT_LOCATOR, BORDER_AGENT_LOCATOR_BIT, 0, flags);
    steeringData, flags := TakeValue(tlvs, STEERING_DATA, STEERING_DATA_BIT, flags);
    aeSteeringData, flags := TakeValue(tlvs, AE_STEERING_DATA, AE_STEERING_DATA_BIT, flags);
    nmkpSteeringData, flags := TakeValue(tlvs, NMKP_STEERING_DATA, NMKP_STEERING_DATA_BIT, flags);
    joinerUdpPort, flags := TakeWord(tlvs, JOINER_UDP_PORT, JOINER_UDP_PORT_BIT, 0, flags);
    aeUdpPort, flags := TakeWord(tlvs, AE_UDP_PORT, AE_UDP_PORT_BIT, 0, flags);
    nmkpUdpPort, flags := TakeWord(tlvs, NMKP_UDP_PORT, NMKP_UDP_PORT_BIT, 0, flags);
    error, dataset := None, CommissionerDataset(locator, sessionId, steeringData, aeSteeringData, nmkpSteeringData,
                                                joinerUdpPort, aeUdpPort, nmkpUdpPort, flags);
  }
}
