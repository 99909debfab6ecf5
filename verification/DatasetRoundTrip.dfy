/**
 Decoding undoes encoding: a dataset that can be encoded at all comes back with the
 same known present-flags and the same present fields.
 */
module DatasetRoundTrip {
  import opened Outcomes
  import opened Bytes
  import opened Tlv
  import opened Datasets
  import opened DatasetCodec

  /** The TLV set holds the present fields of a table, and none of its absent ones. */
  ghost predicate Carries(tlvs: TlvSet, fields: seq<Field>) {
    forall f :: f in fields ==> (f.typ in tlvs <==> f.present) && (f.present ==> f.value == Ok(tlvs[f.typ]))
  }

  lemma CarriesAt(tlvs: TlvSet, fields: seq<Field>, k: nat)
    requires Carries(tlvs, fields) && k < |fields|
    ensures fields[k].typ in tlvs <==> fields[k].present
    ensures fields[k].present ==> fields[k].value == Ok(tlvs[fields[k].typ])
  {
    assert fields[k] in fields;
  }

  /** What an encoded table of distinct types parses to. */
  lemma SetOfEncoded(fields: seq<Field>, payload: ByteArray)
    requires EncodeFields([], fields) == Ok(payload)
    requires DistinctTypes(fields) && forall f :: f in fields ==> f.typ != DOMAIN_PREFIX
    ensures SetOf(payload).Ok? && Carries(SetOf(payload).value, fields)
  {
    hide EncodeFields, IsValid, TlvBytes;
    ParseEncodedFields([], fields, map[]);
    AllFieldsEncoded([], fields);
    FieldLookup(fields, map[]);
  }

  // ---------------------------------------------------------------------------
  // Fields
  // ---------------------------------------------------------------------------

  lemma WordComesBack(tlvs: TlvSet, typ: Byte, absent: Word, v: Word)
    requires typ in tlvs && tlvs[typ] == BigEndian(2, v)
    ensures |tlvs[typ]| == 2 && WordOf(tlvs, typ, absent) == v
  {
    TwoDigits(v);
  }

  lemma TimestampComesBack(tlvs: TlvSet, typ: Byte, absent: Timestamp, v: Timestamp)
    requires typ in tlvs && tlvs[typ] == BigEndian(8, EncodeTimestamp(v))
    ensures |tlvs[typ]| == 8 && TimestampOf(tlvs, typ, absent) == v
  {
    hide EncodeTimestamp, DecodeTimestamp, BigEndian, Value, Pow256;
    TimestampRoundTrip(v);
    Widths();
    ValueOfBigEndian(8, EncodeTimestamp(v));
  }

  lemma DelayComesBack(tlvs: TlvSet, absent: Uint32, v: Uint32)
    requires DELAY_TIMER in tlvs && tlvs[DELAY_TIMER] == BigEndian(4, v)
    ensures |tlvs[DELAY_TIMER]| == 4 && DelayOf(tlvs, absent) == v
  {
    hide BigEndian, Value, Pow256;
    Widths();
    ValueOfBigEndian(4, v);
  }

  lemma ChannelComesBack(tlvs: TlvSet, absent: Channel, c: Channel)
    requires AllValid(tlvs)
    requires CHANNEL in tlvs && tlvs[CHANNEL] == [c.page] + BigEndian(2, c.number)
    ensures ChannelOf(tlvs, absent) == c
  {
    hide IsValid;
    TwoDigits(c.number);
    FieldLengths(tlvs);
  }

  lemma PolicyComesBack(tlvs: TlvSet, absent: SecurityPolicy, p: SecurityPolicy)
    requires AllValid(tlvs)
    requires SECURITY_POLICY in tlvs && tlvs[SECURITY_POLICY] == BigEndian(2, p.rotationTime) + p.flags
    ensures PolicyOf(tlvs, absent) == p
  {
    hide IsValid;
    TwoDigits(p.rotationTime);
    FieldLengths(tlvs);
    assert tlvs[SECURITY_POLICY][2..] == p.flags;
  }

  /** Looking for one more field keeps the flags a masked copy of the encoder's. */
  lemma MarkStep(tlvs: TlvSet, flags: bv16, mask: bv16, typ: Byte, bit: bv16, next: bv16)
    requires typ in tlvs <==> Has(flags, bit)
    requires bit & (bit - 1) == 0 && next == mask | bit
    ensures Mark(Known(flags, mask), tlvs, typ, bit) == Known(flags, next)
  {
    if typ in tlvs {
      BitSet(flags, mask, bit);
    } else {
      BitClear(flags, mask, bit);
    }
  }

  lemma BitSet(flags: bv16, mask: bv16, bit: bv16)
    requires bit & (bit - 1) == 0 && Has(flags, bit)
    ensures (flags & mask) | bit == flags & (mask | bit)
  {
    assert flags & bit == bit;
  }

  lemma BitClear(flags: bv16, mask: bv16, bit: bv16)
    requires !Has(flags, bit)
    ensures flags & mask == flags & (mask | bit)
  {
  }

  lemma MasksNest(flags: bv16)
    ensures Known(Known(flags, ACTIVE_BITS), ACTIVE_BITS) == Known(flags, ACTIVE_BITS)
    ensures Known(Known(flags, PENDING_BITS), ACTIVE_BITS) == Known(flags, ACTIVE_BITS)
    ensures Known(Known(flags, PENDING_BITS), PENDING_BITS) == Known(flags, PENDING_BITS)
    ensures Known(Known(flags, COMMISSIONER_BITS), COMMISSIONER_BITS) == Known(flags, COMMISSIONER_BITS)
    ensures Known(flags, 0) == 0
  {
    hide Known;
    MaskTwice(flags, ACTIVE_BITS, ACTIVE_BITS);
    MaskTwice(flags, PENDING_BITS, ACTIVE_BITS);
    MaskTwice(flags, PENDING_BITS, PENDING_BITS);
    MaskTwice(flags, COMMISSIONER_BITS, COMMISSIONER_BITS);
    NothingKnown(flags);
  }

  lemma MaskTwice(flags: bv16, m: bv16, n: bv16)
    requires m & n == n
    ensures Known(Known(flags, m), n) == Known(flags, n)
  {
    assert (flags & m) & n == flags & (m & n);
  }

  lemma NothingKnown(flags: bv16)
    ensures Known(flags, 0) == 0
  {
  }

  // ---------------------------------------------------------------------------
  // Active datasets
  // ---------------------------------------------------------------------------

  /** Two datasets with the same known flags and the same present fields. */
  predicate SameActive(a: ActiveDataset, b: ActiveDataset) {
    && Known(a.flags, ACTIVE_BITS) == Known(b.flags, ACTIVE_BITS)
    && (Has(a.flags, ACTIVE_TIMESTAMP_BIT) ==> a.activeTimestamp == b.activeTimestamp)
    && (Has(a.flags, CHANNEL_BIT) ==> a.channel == b.channel)
    && (Has(a.flags, CHANNEL_MASK_BIT) ==> a.channelMask == b.channelMask)
    && (Has(a.flags, EXTENDED_PAN_ID_BIT) ==> a.extendedPanId == b.extendedPanId)
    && (Has(a.flags, MESH_LOCAL_PREFIX_BIT) ==> a.meshLocalPrefix == b.meshLocalPrefix)
    && (Has(a.flags, NETWORK_MASTER_KEY_BIT) ==> a.networkMasterKey == b.networkMasterKey)
    && (Has(a.flags, NETWORK_NAME_BIT) ==> a.networkName == b.networkName)
    && (Has(a.flags, PAN_ID_BIT) ==> a.panId == b.panId)
    && (Has(a.flags, PSKC_BIT) ==> a.pskc == b.pskc)
    && (Has(a.flags, SECURITY_POLICY_BIT) ==> a.securityPolicy == b.securityPolicy)
  }

  lemma ActiveFlagsComeBack(d: ActiveDataset, tlvs: TlvSet)
    requires Carries(tlvs, ActiveFields(d))
    ensures ActiveFlags(tlvs) == Known(d.flags, ACTIVE_BITS)
  {
    hide Carries, Mark, Has, Known, EncodeTimestamp, BigEndian, MaskBytes;
    var f := ActiveFields(d);
    MasksNest(d.flags);
    CarriesAt(tlvs, f, 0); MarkStep(tlvs, d.flags, 0, ACTIVE_TIMESTAMP, ACTIVE_TIMESTAMP_BIT, 0x8000);
    CarriesAt(tlvs, f, 1); MarkStep(tlvs, d.flags, 0x8000, CHANNEL, CHANNEL_BIT, 0xC000);
    CarriesAt(tlvs, f, 2); MarkStep(tlvs, d.flags, 0xC000, CHANNEL_MASK, CHANNEL_MASK_BIT, 0xE000);
    CarriesAt(tlvs, f, 3); MarkStep(tlvs, d.flags, 0xE000, EXTENDED_PAN_ID, EXTENDED_PAN_ID_BIT, 0xF000);
    CarriesAt(tlvs, f, 4); MarkStep(tlvs, d.flags, 0xF000, NETWORK_MESH_LOCAL_PREFIX, MESH_LOCAL_PREFIX_BIT, 0xF800);
    CarriesAt(tlvs, f, 5); MarkStep(tlvs, d.flags, 0xF800, NETWORK_MASTER_KEY, NETWORK_MASTER_KEY_BIT, 0xFC00);
    CarriesAt(tlvs, f, 6); MarkStep(tlvs, d.flags, 0xFC00, NETWORK_NAME, NETWORK_NAME_BIT, 0xFE00);
    CarriesAt(tlvs, f, 7); MarkStep(tlvs, d.flags, 0xFE00, PAN_ID, PAN_ID_BIT, 0xFF00);
    CarriesAt(tlvs, f, 8); MarkStep(tlvs, d.flags, 0xFF00, PSKC, PSKC_BIT, 0xFF80);
    CarriesAt(tlvs, f, 9); MarkStep(tlvs, d.flags, 0xFF80, SECURITY_POLICY, SECURITY_POLICY_BIT, 0xFFC0);
  }

  /** The fields whose value is more than a byte string. */
  lemma StructuredFieldsComeBack(blank: ActiveDataset, d: ActiveDataset, tlvs: TlvSet)
    requires AllValid(tlvs) && Carries(tlvs, ActiveFields(d))
    ensures MaskIsWellFormed(tlvs)
    ensures Has(d.flags, CHANNEL_MASK_BIT) ==> MaskOf(tlvs) == d.channelMask
    ensures Has(d.flags, ACTIVE_TIMESTAMP_BIT) ==>
            TimestampOf(tlvs, ACTIVE_TIMESTAMP, blank.activeTimestamp) == d.activeTimestamp
    ensures Has(d.flags, CHANNEL_BIT) ==> ChannelOf(tlvs, blank.channel) == d.channel
    ensures Has(d.flags, PAN_ID_BIT) ==> WordOf(tlvs, PAN_ID, blank.panId) == d.panId
    ensures Has(d.flags, SECURITY_POLICY_BIT) ==> PolicyOf(tlvs, blank.securityPolicy) == d.securityPolicy
  {
    hide IsValid, AllValid, Carries, Has, Known, EncodeTimestamp, BigEndian, MaskBytes, ParseMask, TimestampOf,
         ChannelOf, WordOf, PolicyOf;
    var f := ActiveFields(d);
    FieldLengths(tlvs);
    CarriesAt(tlvs, f, 0);
    if f[0].present { TimestampComesBack(tlvs, ACTIVE_TIMESTAMP, blank.activeTimestamp, d.activeTimestamp); }
    CarriesAt(tlvs, f, 1);
    if f[1].present { ChannelComesBack(tlvs, blank.channel, d.channel); }
    CarriesAt(tlvs, f, 2);
    if f[2].present { MaskRoundTrip(d.channelMask); }
    CarriesAt(tlvs, f, 7);
    if f[7].present { WordComesBack(tlvs, PAN_ID, blank.panId, d.panId); }
    CarriesAt(tlvs, f, 9);
    if f[9].present { PolicyComesBack(tlvs, blank.securityPolicy, d.securityPolicy); }
  }

  lemma PlainFieldsComeBack(d: ActiveDataset, tlvs: TlvSet)
    requires Carries(tlvs, ActiveFields(d))
    ensures Has(d.flags, EXTENDED_PAN_ID_BIT) ==> ValueOf(tlvs, EXTENDED_PAN_ID) == d.extendedPanId
    ensures Has(d.flags, MESH_LOCAL_PREFIX_BIT) ==> ValueOf(tlvs, NETWORK_MESH_LOCAL_PREFIX) == d.meshLocalPrefix
    ensures Has(d.flags, NETWORK_MASTER_KEY_BIT) ==> ValueOf(tlvs, NETWORK_MASTER_KEY) == d.networkMasterKey
    ensures Has(d.flags, NETWORK_NAME_BIT) ==> ValueOf(tlvs, NETWORK_NAME) == d.networkName
    ensures Has(d.flags, PSKC_BIT) ==> ValueOf(tlvs, PSKC) == d.pskc
  {
    hide Carries, Has, Known, EncodeTimestamp, BigEndian, MaskBytes;
    var f := ActiveFields(d);
    CarriesAt(tlvs, f, 3);
    CarriesAt(tlvs, f, 4);
    CarriesAt(tlvs, f, 5);
    CarriesAt(tlvs, f, 6);
    CarriesAt(tlvs, f, 8);
  }

  lemma ActiveComesBack(blank: ActiveDataset, d: ActiveDataset, tlvs: TlvSet)
    requires AllValid(tlvs) && Carries(tlvs, ActiveFields(d))
    ensures MaskIsWellFormed(tlvs)
    ensures SameActive(d, ActiveOf(blank, tlvs)) && ActiveOf(blank, tlvs).flags == Known(d.flags, ACTIVE_BITS)
  {
    hide AllValid, Carries, ActiveFields, ActiveFlags, Has, Known, TimestampOf, ChannelOf, WordOf, PolicyOf, ValueOf,
         MaskOf, MaskIsWellFormed;
    ActiveFlagsComeBack(d, tlvs);
    StructuredFieldsComeBack(blank, d, tlvs);
    PlainFieldsComeBack(d, tlvs);
    MasksNest(d.flags);
  }

  lemma ActiveFieldTypes(d: ActiveDataset)
    ensures DistinctTypes(ActiveFields(d)) && forall f :: f in ActiveFields(d) ==> f.typ != DOMAIN_PREFIX
  {
  }

  /** The session id that a request carries in front of a dataset. */
  function SessionField(sessionId: Word): Field {
    Field(true, COMMISSIONER_SESSION_ID, Ok(BigEndian(2, sessionId)))
  }

  /** An Active dataset as the code sends it, behind the session id of the commissioner. */
  lemma ActiveRequestRoundTrip(sessionId: Word, d: ActiveDataset, payload: ByteArray, blank: ActiveDataset,
                               before: ActiveDataset)
    requires EncodeFields([], [SessionField(sessionId)] + ActiveFields(d)) == Ok(payload)
    ensures var r := DecodedActive(blank, before, payload);
            r.error == None && r.dataset.flags == Known(d.flags, ACTIVE_BITS) && SameActive(d, r.dataset)
  {
    hide ActiveFields, ActiveOf, SameActive, SetOf, EncodeFields, Carries, MaskIsWellFormed, BigEndian, DistinctTypes;
    var fields := [SessionField(sessionId)] + ActiveFields(d);
    ActiveFieldTypes(d);
    NoSessionInActive(d);
    PrependDistinct(SessionField(sessionId), ActiveFields(d));
    SetOfEncoded(fields, payload);
    CarriesParts(SetOf(payload).value, [SessionField(sessionId)], ActiveFields(d));
    ActiveComesBack(blank, d, SetOf(payload).value);
  }

  lemma NoSessionInActive(d: ActiveDataset)
    ensures forall f :: f in ActiveFields(d) ==> f.typ != COMMISSIONER_SESSION_ID
  {
  }

  lemma PrependDistinct(f: Field, fields: seq<Field>)
    requires DistinctTypes(fields) && forall g :: g in fields ==> g.typ != f.typ
    ensures DistinctTypes([f] + fields)
  {
    assert forall i :: 0 < i < |[f] + fields| ==> ([f] + fields)[i] == fields[i - 1] && fields[i - 1] in fields;
  }

  /** Encoding and then decoding an Active dataset. */
  lemma ActiveRoundTrip(d: ActiveDataset, payload: ByteArray, blank: ActiveDataset, before: ActiveDataset)
    requires EncodeFields([], ActiveFields(d)) == Ok(payload)
    ensures var r := DecodedActive(blank, before, payload);
            r.error == None && r.dataset.flags == Known(d.flags, ACTIVE_BITS) && SameActive(d, r.dataset)
  {
    hide ActiveFields, ActiveOf, SameActive, SetOf, EncodeFields, Carries, MaskIsWellFormed;
    ActiveFieldTypes(d);
    SetOfEncoded(ActiveFields(d), payload);
    ActiveComesBack(blank, d, SetOf(payload).value);
  }

  // ---------------------------------------------------------------------------
  // Pending datasets
  // ---------------------------------------------------------------------------

  predicate SamePending(a: PendingDataset, b: PendingDataset) {
    && Known(a.active.flags, PENDING_BITS) == Known(b.active.flags, PENDING_BITS)
    && SameActive(a.active, b.active)
    && (Has(a.active.flags, DELAY_TIMER_BIT) ==> a.delayTimer == b.delayTimer)
    && (Has(a.active.flags, PENDING_TIMESTAMP_BIT) ==> a.pendingTimestamp == b.pendingTimestamp)
  }

  lemma PendingFieldTypes(d: PendingDataset)
    ensures DistinctTypes(PendingFields(d)) && forall f :: f in PendingFields(d) ==> f.typ != DOMAIN_PREFIX
  {
    hide Has, Known, BigEndian, EncodeTimestamp, MaskBytes;
  }

  lemma CarriesParts(tlvs: TlvSet, a: seq<Field>, b: seq<Field>)
    requires Carries(tlvs, a + b)
    ensures Carries(tlvs, a) && Carries(tlvs, b)
  {
    assert forall f :: f in a || f in b ==> f in a + b;
  }

  lemma PendingFlagsComeBack(d: PendingDataset, tlvs: TlvSet)
    requires Carries(tlvs, PendingOnlyFields(d))
    ensures var flags := Mark(Known(d.active.flags, ACTIVE_BITS), tlvs, DELAY_TIMER, DELAY_TIMER_BIT);
            Mark(flags, tlvs, PENDING_TIMESTAMP, PENDING_TIMESTAMP_BIT) == Known(d.active.flags, PENDING_BITS)
  {
    hide Carries, Mark, Has, Known, EncodeTimestamp, BigEndian;
    var f := PendingOnlyFields(d);
    CarriesAt(tlvs, f, 0); MarkStep(tlvs, d.active.flags, ACTIVE_BITS, DELAY_TIMER, DELAY_TIMER_BIT, 0xFFE0);
    CarriesAt(tlvs, f, 1); MarkStep(tlvs, d.active.flags, 0xFFE0, PENDING_TIMESTAMP, PENDING_TIMESTAMP_BIT, PENDING_BITS);
  }

  lemma PendingComesBack(blanks: Blanks, d: PendingDataset, tlvs: TlvSet)
    requires AllValid(tlvs) && Carries(tlvs, PendingFields(d))
    ensures MaskIsWellFormed(tlvs)
    ensures var r := PendingOf(blanks.pending, ActiveOf(blanks.active, tlvs), tlvs);
            SamePending(d, r) && r.active.flags == Known(d.active.flags, PENDING_BITS)
  {
    hide AllValid, Carries, ActiveFields, ActiveOf, Has, Known, TimestampOf, DelayOf, MaskIsWellFormed, Mark, BigEndian,
         EncodeTimestamp;
    CarriesParts(tlvs, ActiveFields(d.active), PendingOnlyFields(d));
    ActiveComesBack(blanks.active, d.active, tlvs);
    PendingFlagsComeBack(d, tlvs);
    FieldLengths(tlvs);
    var f := PendingOnlyFields(d);
    CarriesAt(tlvs, f, 0);
    if f[0].present { DelayComesBack(tlvs, blanks.pending.delayTimer, d.delayTimer); }
    CarriesAt(tlvs, f, 1);
    if f[1].present { TimestampComesBack(tlvs, PENDING_TIMESTAMP, blanks.pending.pendingTimestamp, d.pendingTimestamp); }
    MasksNest(d.active.flags);
  }

  /** A Pending dataset as the code sends it, behind the session id of the commissioner. */
  lemma PendingRequestRoundTrip(sessionId: Word, d: PendingDataset, payload: ByteArray, blanks: Blanks,
                                before: PendingDataset)
    requires EncodeFields([], [SessionField(sessionId)] + PendingFields(d)) == Ok(payload)
    ensures var r := DecodedPending(blanks, before, payload);
            && r.error == None && r.dataset.active.flags == Known(d.active.flags, PENDING_BITS)
            && SamePending(d, r.dataset)
  {
    hide PendingFields, ActiveOf, PendingOf, SamePending, SetOf, EncodeFields, Carries, MaskIsWellFormed, BigEndian,
         DistinctTypes;
    var fields := [SessionField(sessionId)] + PendingFields(d);
    PendingFieldTypes(d);
    NoSessionInPending(d);
    PrependDistinct(SessionField(sessionId), PendingFields(d));
    SetOfEncoded(fields, payload);
    CarriesParts(SetOf(payload).value, [SessionField(sessionId)], PendingFields(d));
    PendingComesBack(blanks, d, SetOf(payload).value);
  }

  lemma NoSessionInPending(d: PendingDataset)
    ensures forall f :: f in PendingFields(d) ==> f.typ != COMMISSIONER_SESSION_ID
  {
    hide ActiveFields, Has, BigEndian, EncodeTimestamp;
    NoSessionInActive(d.active);
  }

  /** Encoding and then decoding a Pending dataset. */
  lemma PendingRoundTrip(d: PendingDataset, payload: ByteArray, blanks: Blanks, before: PendingDataset)
    requires EncodeFields([], PendingFields(d)) == Ok(payload)
    ensures var r := DecodedPending(blanks, before, payload);
            r.error == None && r.dataset.active.flags == Known(d.active.flags, PENDING_BITS) && SamePending(d, r.dataset)
  {
    hide PendingFields, ActiveOf, PendingOf, SamePending, SetOf, EncodeFields, Carries, MaskIsWellFormed;
    PendingFieldTypes(d);
    SetOfEncoded(PendingFields(d), payload);
    PendingComesBack(blanks, d, SetOf(payload).value);
  }

  // ---------------------------------------------------------------------------
  // Commissioner datasets
  // ---------------------------------------------------------------------------

  predicate SameCommissioner(a: CommissionerDataset, b: CommissionerDataset) {
    && Known(a.flags, COMMISSIONER_BITS) == Known(b.flags, COMMISSIONER_BITS)
    && (Has(a.flags, SESSION_ID_BIT) ==> a.sessionId == b.sessionId)
    && (Has(a.flags, BORDER_AGENT_LOCATOR_BIT) ==> a.borderAgentLocator == b.borderAgentLocator)
    && (Has(a.flags, STEERING_DATA_BIT) ==> a.steeringData == b.steeringData)
    && (Has(a.flags, AE_STEERING_DATA_BIT) ==> a.aeSteeringData == b.aeSteeringData)
    && (Has(a.flags, NMKP_STEERING_DATA_BIT) ==> a.nmkpSteeringData == b.nmkpSteeringData)
    && (Has(a.flags, JOINER_UDP_PORT_BIT) ==> a.joinerUdpPort == b.joinerUdpPort)
    && (Has(a.flags, AE_UDP_PORT_BIT) ==> a.aeUdpPort == b.aeUdpPort)
    && (Has(a.flags, NMKP_UDP_PORT_BIT) ==> a.nmkpUdpPort == b.nmkpUdpPort)
  }

  lemma CommissionerFlagsComeBack(d: CommissionerDataset, tlvs: TlvSet)
    requires Carries(tlvs, CommissionerFields(d))
    ensures CommissionerFlags(tlvs) == Known(d.flags, COMMISSIONER_BITS)
  {
    hide Carries, Mark, Has, Known, BigEndian;
    var f := CommissionerFields(d);
    MasksNest(d.flags);
    CarriesAt(tlvs, f, 0); MarkStep(tlvs, d.flags, 0, COMMISSIONER_SESSION_ID, SESSION_ID_BIT, 0x4000);
    CarriesAt(tlvs, f, 1); MarkStep(tlvs, d.flags, 0x4000, BORDER_AGENT_LOCATOR, BORDER_AGENT_LOCATOR_BIT, 0xC000);
    CarriesAt(tlvs, f, 2); MarkStep(tlvs, d.flags, 0xC000, STEERING_DATA, STEERING_DATA_BIT, 0xE000);
    CarriesAt(tlvs, f, 3); MarkStep(tlvs, d.flags, 0xE000, AE_STEERING_DATA, AE_STEERING_DATA_BIT, 0xF000);
    CarriesAt(tlvs, f, 4); MarkStep(tlvs, d.flags, 0xF000, NMKP_STEERING_DATA, NMKP_STEERING_DATA_BIT, 0xF800);
    CarriesAt(tlvs, f, 5); MarkStep(tlvs, d.flags, 0xF800, JOINER_UDP_PORT, JOINER_UDP_PORT_BIT, 0xFC00);
    CarriesAt(tlvs, f, 6); MarkStep(tlvs, d.flags, 0xFC00, AE_UDP_PORT, AE_UDP_PORT_BIT, 0xFE00);
    CarriesAt(tlvs, f, 7); MarkStep(tlvs, d.flags, 0xFE00, NMKP_UDP_PORT, NMKP_UDP_PORT_BIT, 0xFF00);
  }

  lemma CommissionerWordsComeBack(d: CommissionerDataset, tlvs: TlvSet)
    requires AllValid(tlvs) && Carries(tlvs, CommissionerFields(d))
    ensures Has(d.flags, SESSION_ID_BIT) ==> WordOf(tlvs, COMMISSIONER_SESSION_ID, 0) == d.sessionId
    ensures Has(d.flags, BORDER_AGENT_LOCATOR_BIT) ==> WordOf(tlvs, BORDER_AGENT_LOCATOR, 0) == d.borderAgentLocator
    ensures Has(d.flags, JOINER_UDP_PORT_BIT) ==> WordOf(tlvs, JOINER_UDP_PORT, 0) == d.joinerUdpPort
    ensures Has(d.flags, AE_UDP_PORT_BIT) ==> WordOf(tlvs, AE_UDP_PORT, 0) == d.aeUdpPort
    ensures Has(d.flags, NMKP_UDP_PORT_BIT) ==> WordOf(tlvs, NMKP_UDP_PORT, 0) == d.nmkpUdpPort
  {
    hide IsValid, AllValid, Carries, Has, Known, BigEndian, WordOf;
    var f := CommissionerFields(d);
    FieldLengths(tlvs);
    CarriesAt(tlvs, f, 0);
    if f[0].present { WordComesBack(tlvs, COMMISSIONER_SESSION_ID, 0, d.sessionId); }
    CarriesAt(tlvs, f, 1);
    if f[1].present { WordComesBack(tlvs, BORDER_AGENT_LOCATOR, 0, d.borderAgentLocator); }
    CarriesAt(tlvs, f, 5);
    if f[5].present { WordComesBack(tlvs, JOINER_UDP_PORT, 0, d.joinerUdpPort); }
    CarriesAt(tlvs, f, 6);
    if f[6].present { WordComesBack(tlvs, AE_UDP_PORT, 0, d.aeUdpPort); }
    CarriesAt(tlvs, f, 7);
    if f[7].present { WordComesBack(tlvs, NMKP_UDP_PORT, 0, d.nmkpUdpPort); }
  }

  lemma CommissionerComesBack(d: CommissionerDataset, tlvs: TlvSet)
    requires AllValid(tlvs) && Carries(tlvs, CommissionerFields(d))
    ensures SameCommissioner(d, CommissionerOf(tlvs)) && CommissionerOf(tlvs).flags == Known(d.flags, COMMISSIONER_BITS)
  {
    hide AllValid, Carries, CommissionerFlags, Has, Known, WordOf, BigEndian;
    CommissionerFlagsComeBack(d, tlvs);
    CommissionerWordsComeBack(d, tlvs);
    var f := CommissionerFields(d);
    CarriesAt(tlvs, f, 2);
    CarriesAt(tlvs, f, 3);
    CarriesAt(tlvs, f, 4);
    MasksNest(d.flags);
  }

  lemma CommissionerFieldTypes(d: CommissionerDataset)
    ensures DistinctTypes(CommissionerFields(d)) && forall f :: f in CommissionerFields(d) ==> f.typ != DOMAIN_PREFIX
  {
  }

  /** Encoding and then decoding a Commissioner dataset. */
  lemma CommissionerRoundTrip(d: CommissionerDataset, payload: ByteArray, before: CommissionerDataset)
    requires EncodeFields([], CommissionerFields(d)) == Ok(payload)
    ensures var r := DecodedCommissioner(before, payload);
            r.error == None && r.dataset.flags == Known(d.flags, COMMISSIONER_BITS) && SameCommissioner(d, r.dataset)
  {
    hide CommissionerFields, CommissionerOf, SameCommissioner, SetOf, EncodeFields, Carries;
    CommissionerFieldTypes(d);
    SetOfEncoded(CommissionerFields(d), payload);
    CommissionerComesBack(d, SetOf(payload).value);
  }

  // ---------------------------------------------------------------------------
  // Malformed channel masks
  // ---------------------------------------------------------------------------

  lemma MarkOther(flags: bv16, tlvs: TlvSet, typ: Byte, bit: bv16, other: bv16)
    requires bit & other == 0
    ensures Has(Mark(flags, tlvs, typ, bit), other) == Has(flags, other)
  {
    if typ in tlvs {
      OtherBit(flags, bit, other);
    }
  }

  lemma OtherBit(flags: bv16, bit: bv16, other: bv16)
    requires bit & other == 0
    ensures (flags | bit) & other == flags & other
  {
  }

  lemma MarkOwn(flags: bv16, tlvs: TlvSet, typ: Byte, bit: bv16)
    requires bit != 0 && !Has(flags, bit)
    ensures Has(Mark(flags, tlvs, typ, bit), bit) <==> typ in tlvs
  {
    assert (flags | bit) & bit == bit;
  }

  lemma MaskFlagOf(tlvs: TlvSet)
    ensures Has(ActiveFlags(tlvs), CHANNEL_MASK_BIT) <==> CHANNEL_MASK in tlvs
  {
    hide Mark, Has;
    var mask := CHANNEL_MASK_BIT;
    assert !Has(0, mask) by { NothingSet(mask); }
    var f0 := Mark(0, tlvs, ACTIVE_TIMESTAMP, ACTIVE_TIMESTAMP_BIT);
    MarkOther(0, tlvs, ACTIVE_TIMESTAMP, ACTIVE_TIMESTAMP_BIT, mask);
    var f1 := Mark(f0, tlvs, CHANNEL, CHANNEL_BIT);
    MarkOther(f0, tlvs, CHANNEL, CHANNEL_BIT, mask);
    var f2 := Mark(f1, tlvs, CHANNEL_MASK, CHANNEL_MASK_BIT);
    MarkOwn(f1, tlvs, CHANNEL_MASK, mask);
    var f3 := Mark(f2, tlvs, EXTENDED_PAN_ID, EXTENDED_PAN_ID_BIT);
    MarkOther(f2, tlvs, EXTENDED_PAN_ID, EXTENDED_PAN_ID_BIT, mask);
    var f4 := Mark(f3, tlvs, NETWORK_MESH_LOCAL_PREFIX, MESH_LOCAL_PREFIX_BIT);
    MarkOther(f3, tlvs, NETWORK_MESH_LOCAL_PREFIX, MESH_LOCAL_PREFIX_BIT, mask);
    var f5 := Mark(f4, tlvs, NETWORK_MASTER_KEY, NETWORK_MASTER_KEY_BIT);
    MarkOther(f4, tlvs, NETWORK_MASTER_KEY, NETWORK_MASTER_KEY_BIT, mask);
    var f6 := Mark(f5, tlvs, NETWORK_NAME, NETWORK_NAME_BIT);
    MarkOther(f5, tlvs, NETWORK_NAME, NETWORK_NAME_BIT, mask);
    var f7 := Mark(f6, tlvs, PAN_ID, PAN_ID_BIT);
    MarkOther(f6, tlvs, PAN_ID, PAN_ID_BIT, mask);
    var f8 := Mark(f7, tlvs, PSKC, PSKC_BIT);
    MarkOther(f7, tlvs, PSKC, PSKC_BIT, mask);
    MarkOther(f8, tlvs, SECURITY_POLICY, SECURITY_POLICY_BIT, mask);
  }

  lemma NothingSet(bit: bv16)
    ensures !Has(0, bit)
  {
  }

  /**
   Decoding any well-formed TLV stream into a dataset without a mask reports success. The result tells of a Channel Mask
   TLV in the stream exactly when the value of that TLV is a well-formed mask.
   */
  lemma MaskFlagIsTrueIffWellFormed(blank: ActiveDataset, before: ActiveDataset, payload: ByteArray)
    requires SetOf(payload).Ok? && !Has(before.flags, CHANNEL_MASK_BIT)
    ensures var (r, tlvs) := (DecodedActive(blank, before, payload), SetOf(payload).value);
            && r.error == None
            && ((Has(r.dataset.flags, CHANNEL_MASK_BIT) <==> CHANNEL_MASK in tlvs) <==> MaskIsWellFormed(tlvs))
  {
    hide SetOf, ActiveFlags, Has, ParseMask;
    NothingSet(CHANNEL_MASK_BIT);
    MaskFlagOf(SetOf(payload).value);
  }

  /** A mask that ends early: the decoder says all is well and hands back what it was given. */
  lemma MalformedMaskIsSilent(blank: ActiveDataset, before: ActiveDataset)
    ensures DecodedActive(blank, before, [CHANNEL_MASK, 1, 0]) == Decoded(None, before)
  {
    var payload: ByteArray := [CHANNEL_MASK, 1, 0];
    assert payload[2..3] == [0] && payload[3..] == [];
    assert ParseTlvs(MeshCoP, payload[3..], map[CHANNEL_MASK := [0]]).Ok?;
    assert ParseTlv(payload) == Ok(ParsedTlv(Tlv(CHANNEL_MASK, [0]), 3));
    assert Kept(MeshCoP, Tlv(CHANNEL_MASK, [0]), map[]) == map[CHANNEL_MASK := [0]];
  }

  /** The Pending decoder then leaves every Active field as a new dataset has it, and keeps its own two. */
  lemma MalformedMaskLosesActiveFields(payload: ByteArray, blanks: Blanks, before: PendingDataset)
    requires SetOf(payload).Ok? && !MaskIsWellFormed(SetOf(payload).value)
    ensures var (r, tlvs) := (DecodedPending(blanks, before, payload), SetOf(payload).value);
            && r.error == None && r.dataset.active.(flags := 0) == blanks.pending.active.(flags := 0)
            && (Has(r.dataset.active.flags, DELAY_TIMER_BIT) <==> DELAY_TIMER in tlvs)
            && (Has(r.dataset.active.flags, PENDING_TIMESTAMP_BIT) <==> PENDING_TIMESTAMP in tlvs)
  {
    hide SetOf, Has, MaskIsWellFormed, DelayOf, TimestampOf, Mark;
    var tlvs := SetOf(payload).value;
    NothingSet(DELAY_TIMER_BIT);
    NothingSet(PENDING_TIMESTAMP_BIT);
    var flags := Mark(0, tlvs, DELAY_TIMER, DELAY_TIMER_BIT);
    MarkOwn(0, tlvs, DELAY_TIMER, DELAY_TIMER_BIT);
    MarkOther(0, tlvs, DELAY_TIMER, DELAY_TIMER_BIT, PENDING_TIMESTAMP_BIT);
    MarkOther(flags, tlvs, PENDING_TIMESTAMP, PENDING_TIMESTAMP_BIT, DELAY_TIMER_BIT);
    MarkOwn(flags, tlvs, PENDING_TIMESTAMP, PENDING_TIMESTAMP_BIT);
  }
}
