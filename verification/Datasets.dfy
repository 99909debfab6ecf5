/**
 The Active, Pending and Commissioner datasets of include/commissioner/network_data.hpp
 and their TLV codecs of src/library/commissioner_impl.cpp.

 A field of a dataset is meaningful only when its bit is set in `flags`.
 */
module Datasets {
  import opened Outcomes
  import opened Bytes
  import opened Tlv

  type Uint32 = x: int | 0 <= x < 0x1_0000_0000
  type Uint48 = x: int | 0 <= x < 0x1_0000_0000_0000
  type Uint15 = x: int | 0 <= x < 0x8000
  type Bit = x: int | 0 <= x < 2

  datatype Timestamp = Timestamp(seconds: Uint48, ticks: Uint15, u: Bit)
  datatype Channel = Channel(page: Byte, number: Word)
  datatype ChannelMaskEntry = ChannelMaskEntry(page: Byte, masks: ByteArray)
  type ChannelMask = seq<ChannelMaskEntry>
  datatype SecurityPolicy = SecurityPolicy(rotationTime: Word, flags: ByteArray)

  datatype ActiveDataset = ActiveDataset(
    activeTimestamp: Timestamp, channel: Channel, channelMask: ChannelMask, extendedPanId: ByteArray,
    meshLocalPrefix: ByteArray, networkMasterKey: ByteArray, networkName: ByteArray, panId: Word,
    pskc: ByteArray, securityPolicy: SecurityPolicy, flags: bv16)

  /** The flags of a Pending dataset are those of the Active dataset it extends. */
  datatype PendingDataset = PendingDataset(active: ActiveDataset, delayTimer: Uint32, pendingTimestamp: Timestamp)

  datatype CommissionerDataset = CommissionerDataset(
    borderAgentLocator: Word, sessionId: Word, steeringData: ByteArray, aeSteeringData: ByteArray,
    nmkpSteeringData: ByteArray, joinerUdpPort: Word, aeUdpPort: Word, nmkpUdpPort: Word, flags: bv16)

  const ACTIVE_TIMESTAMP_BIT: bv16 := 0x8000
  const CHANNEL_BIT: bv16 := 0x4000
  const CHANNEL_MASK_BIT: bv16 := 0x2000
  const EXTENDED_PAN_ID_BIT: bv16 := 0x1000
  const MESH_LOCAL_PREFIX_BIT: bv16 := 0x0800
  const NETWORK_MASTER_KEY_BIT: bv16 := 0x0400
  const NETWORK_NAME_BIT: bv16 := 0x0200
  const PAN_ID_BIT: bv16 := 0x0100
  const PSKC_BIT: bv16 := 0x0080
  const SECURITY_POLICY_BIT: bv16 := 0x0040
  const DELAY_TIMER_BIT: bv16 := 0x0020
  const PENDING_TIMESTAMP_BIT: bv16 := 0x0010
  const ACTIVE_BITS: bv16 := 0xFFC0
  const PENDING_BITS: bv16 := 0xFFF0

  const BORDER_AGENT_LOCATOR_BIT: bv16 := 0x8000
  const SESSION_ID_BIT: bv16 := 0x4000
  const STEERING_DATA_BIT: bv16 := 0x2000
  const AE_STEERING_DATA_BIT: bv16 := 0x1000
  const NMKP_STEERING_DATA_BIT: bv16 := 0x0800
  const JOINER_UDP_PORT_BIT: bv16 := 0x0400
  const AE_UDP_PORT_BIT: bv16 := 0x0200
  const NMKP_UDP_PORT_BIT: bv16 := 0x0100
  const COMMISSIONER_BITS: bv16 := 0xFF00

  const NO_COMMISSIONER := CommissionerDataset(0, 0, [], [], [], 0, 0, 0, 0)

  /** The flags under a mask. */
  function Known(flags: bv16, mask: bv16): bv16 {
    flags & mask
  }

  predicate Has(flags: bv16, bit: bv16) {
    Known(flags, bit) != 0
  }

  function With(flags: bv16, bit: bv16): bv16 {
    flags | bit
  }

  function Without(flags: bv16, bit: bv16): bv16 {
    flags & !bit
  }

  // ---------------------------------------------------------------------------
  // Values
  // ---------------------------------------------------------------------------

  /** `Timestamp::Encode`. */
  function EncodeTimestamp(t: Timestamp): nat {
    t.seconds * 0x1_0000 + t.ticks * 2 + t.u
  }

  /** `Timestamp::Decode`. */
  function DecodeTimestamp(v: nat): Timestamp
    requires v < 0x1_0000_0000_0000_0000
  {
    Timestamp(v / 0x1_0000, v % 0x1_0000 / 2, v % 2)
  }

  lemma TimestampRoundTrip(t: Timestamp)
    ensures EncodeTimestamp(t) < 0x1_0000_0000_0000_0000
    ensures DecodeTimestamp(EncodeTimestamp(t)) == t
  {
    var v, low := EncodeTimestamp(t), t.ticks * 2 + t.u;
    ModulusIs(v, 0x1_0000, t.seconds, low);
    ModulusIs(low, 2, t.ticks, t.u);
    ModulusIs(v, 2, t.seconds * 0x8000 + t.ticks, t.u);
  }

  lemma Widths()
    ensures Pow256(2) == 0x1_0000 && Pow256(4) == 0x1_0000_0000 && Pow256(8) == 0x1_0000_0000_0000_0000
  {
    assert Pow256(1) == 256 && Pow256(2) == 0x1_0000 && Pow256(3) == 0x100_0000;
    assert Pow256(4) == 0x1_0000_0000 && Pow256(6) == 256 * Pow256(5);
  }

  function MaskBytes(mask: ChannelMask): Outcome<ByteArray> {
    if mask == [] then Ok([])
    else if |mask[0].masks| >= ESCAPE_LENGTH then Err(InvalidArgs)
    else
      After([mask[0].page, |mask[0].masks|] + mask[0].masks, MaskBytes(mask[1..]))
  }

  /** `CommissionerImpl::EncodeChannelMask`. */
  method EncodeChannelMask(mask: ChannelMask) returns (r: Outcome<ByteArray>)
    ensures r == MaskBytes(mask)
  {
    var buf: ByteArray := [];
    assert mask[0..] == mask;
    AfterNothing(buf, MaskBytes(mask));
    for i := 0 to |mask|
      invariant After(buf, MaskBytes(mask[i..])) == MaskBytes(mask)
    {
      assert mask[i..][1..] == mask[i + 1..];
      if |mask[i].masks| >= ESCAPE_LENGTH {
        return Err(InvalidArgs);
      }
      var entry := [mask[i].page, |mask[i].masks|] + mask[i].masks;
      AfterAfter(buf, entry, MaskBytes(mask[i + 1..]));
      buf := buf + entry;
    }
    AfterNothing(buf, MaskBytes(mask));
    r := Ok(buf);
  }

  function ParseMask(buf: ByteArray): Outcome<ChannelMask> {
    if buf == [] then Ok([])
    else if |buf| < 2 || 2 + buf[1] as int > |buf| then Err(BadFormat)
    else
      After([ChannelMaskEntry(buf[0], buf[2..2 + buf[1] as int])], ParseMask(buf[2 + buf[1] as int..]))
  }

  /** One entry at `at`, and what follows it. */
  lemma MaskStep(buf: ByteArray, at: nat)
    requires at < |buf|
    ensures at + 2 > |buf| || at + 2 + buf[at + 1] as int > |buf| ==> ParseMask(buf[at..]) == Err(BadFormat)
    ensures at + 2 <= |buf| && at + 2 + buf[at + 1] as int <= |buf| ==>
              var next := at + 2 + buf[at + 1] as int;
              ParseMask(buf[at..]) == After([ChannelMaskEntry(buf[at], buf[at + 2..next])], ParseMask(buf[next..]))
  {
    var rest := buf[at..];
    if at + 2 <= |buf| && at + 2 + buf[at + 1] as int <= |buf| {
      var length := 2 + buf[at + 1] as int;
      SliceOfSuffix(buf, at, 2, length);
      assert rest[length..] == buf[at + length..];
    }
  }

  /** `CommissionerImpl::DecodeChannelMask`. */
  method DecodeChannelMask(aBuf: ByteArray) returns (r: Outcome<ChannelMask>)
    ensures r == ParseMask(aBuf)
  {
    hide ParseMask;
    var mask: ChannelMask := [];
    var offset, length: nat := 0, |aBuf|;
    assert aBuf[0..] == aBuf;
    AfterNothing(mask, ParseMask(aBuf));
    while offset < length
      invariant offset <= length
      invariant After(mask, ParseMask(aBuf[offset..])) == ParseMask(aBuf)
    {
      MaskStep(aBuf, offset);
      if offset + 2 > length {
        return Err(BadFormat);
      }
      var page, entryLength := aBuf[offset], aBuf[offset + 1] as int;
      offset := offset + 2;
      if offset + entryLength > length {
        return Err(BadFormat);
      }
      var entry := ChannelMaskEntry(page, aBuf[offset..offset + entryLength]);
      offset := offset + entryLength;
      AfterAfter(mask, [entry], ParseMask(aBuf[offset..]));
      mask := mask + [entry];
    }
    assert aBuf[offset..] == [];
    NoMask();
    AfterNothing(mask, ParseMask(aBuf));
    r := Ok(mask);
  }

  lemma NoMask()
    ensures ParseMask([]) == Ok([])
  {
  }

  lemma {:induction false} MaskRoundTrip(mask: ChannelMask)
    requires MaskBytes(mask).Ok?
    ensures ParseMask(MaskBytes(mask).value) == Ok(mask)
  {
    if mask == [] {
    } else {
      MaskRoundTrip(mask[1..]);
      var e, rest := mask[0], MaskBytes(mask[1..]).value;
      var buf := MaskBytes(mask).value;
      assert buf[2..2 + |e.masks|] == e.masks;
      assert buf[2 + |e.masks|..] == rest;
      assert [e] + mask[1..] == mask;
    }
  }

  predicate ShortEntries(mask: ChannelMask) {
    mask != [] ==> |mask[0].masks| < ESCAPE_LENGTH && ShortEntries(mask[1..])
  }

  lemma {:induction false} ShortMaskEncodes(buf: ByteArray)
    requires ParseMask(buf).Ok? && ShortEntries(ParseMask(buf).value)
    ensures MaskBytes(ParseMask(buf).value) == Ok(buf)
  {
    if buf == [] {
    } else {
      var at := 2 + buf[1] as int;
      var e, rest := ChannelMaskEntry(buf[0], buf[2..at]), ParseMask(buf[at..]).value;
      assert ParseMask(buf) == Ok([e] + rest) && ([e] + rest)[1..] == rest;
      ShortMaskEncodes(buf[at..]);
      EntryIsPrefix(buf, at);
    }
  }

  lemma EntryIsPrefix(buf: ByteArray, at: nat)
    requires 2 <= at <= |buf|
    ensures [buf[0], buf[1]] + buf[2..at] + buf[at..] == buf
  {
  }

  /** Conversely, a mask that parses is one that encodes to the same bytes, unless an entry is 255 long. */
  lemma ParsedMaskEncodes(buf: ByteArray)
    requires ParseMask(buf).Ok?
    ensures MaskBytes(ParseMask(buf).value) == Ok(buf) <==> ShortEntries(ParseMask(buf).value)
  {
    hide ParseMask, MaskBytes, ShortEntries;
    OnlyLongEntriesFail(ParseMask(buf).value);
    if ShortEntries(ParseMask(buf).value) {
      ShortMaskEncodes(buf);
    }
  }

  lemma {:induction false} OnlyLongEntriesFail(mask: ChannelMask)
    ensures MaskBytes(mask).Ok? <==> ShortEntries(mask)
  {
    if mask == [] {
    } else {
      OnlyLongEntriesFail(mask[1..]);
    }
  }

  // ---------------------------------------------------------------------------
  // Field tables
  // ---------------------------------------------------------------------------

  /** One optional field of a dataset, with the TLV that carries it. */
  datatype Field = Field(present: bool, typ: Byte, value: Outcome<ByteArray>)

  /** Append the TLVs of the present fields to a payload, as successive `AppendTlv` calls do. */
  function EncodeFields(payload: ByteArray, fields: seq<Field>): Outcome<ByteArray>
    decreases |fields|
  {
    if fields == [] then Ok(payload)
    else if !fields[0].present then EncodeFields(payload, fields[1..])
    else
      var value :- fields[0].value;
      if !IsValid(MeshCoP, fields[0].typ, value) then Err(InvalidArgs)
      else EncodeFields(payload + TlvBytes(Tlv(fields[0].typ, value)), fields[1..])
  }

  /** `AppendTlv`: refuse an invalid TLV, append a valid one. */
  method AppendTlv(payload: ByteArray, t: Tlv) returns (r: Outcome<ByteArray>)
    ensures r == if IsValid(MeshCoP, t.typ, t.value) then Ok(payload + TlvBytes(t)) else Err(InvalidArgs)
  {
    if !IsValid(MeshCoP, t.typ, t.value) {
      return Err(InvalidArgs);
    }
    var buf := Serialize(MeshCoP, t, []);
    assert buf == TlvBytes(t);
    r := Ok(payload + buf);
  }

  /** The TLV set of the present fields. */
  function FieldSet(fields: seq<Field>, tlvs: TlvSet): TlvSet
    decreases |fields|
  {
    if fields == [] then tlvs
    else FieldSet(fields[1..],
                  if fields[0].present && fields[0].value.Ok? then tlvs[fields[0].typ := fields[0].value.value] else tlvs)
  }

  /** An encoded table parses to its own TLV set, behind whatever the payload held before. */
  lemma {:induction false} ParseEncodedFields(payload: ByteArray, fields: seq<Field>, tlvs: TlvSet)
    requires EncodeFields(payload, fields).Ok?
    requires ParseTlvs(MeshCoP, payload, map[]) == Ok(tlvs)
    requires forall f :: f in fields ==> f.typ != DOMAIN_PREFIX
    ensures ParseTlvs(MeshCoP, EncodeFields(payload, fields).value, map[]) == Ok(FieldSet(fields, tlvs))
    decreases |fields|
  {
    hide TlvBytes, ParseTlvs, IsValid, Encodable;
    if fields == [] {
    } else {
      var f := fields[0];
      assert f in fields;
      if f.present {
        var t := Tlv(f.typ, f.value.value);
        AppendOneTlv(payload, t, tlvs);
        ParseEncodedFields(payload + TlvBytes(t), fields[1..], tlvs[f.typ := f.value.value]);
      } else {
        ParseEncodedFields(payload, fields[1..], tlvs);
      }
    }
  }

  lemma NothingParses()
    ensures ParseTlvs(MeshCoP, [], map[]) == Ok(map[])
  {
  }

  lemma AppendOneTlv(payload: ByteArray, t: Tlv, tlvs: TlvSet)
    requires ParseTlvs(MeshCoP, payload, map[]) == Ok(tlvs)
    requires IsValid(MeshCoP, t.typ, t.value) && t.typ != DOMAIN_PREFIX
    ensures ParseTlvs(MeshCoP, payload + TlvBytes(t), map[]) == Ok(tlvs[t.typ := t.value])
  {
    hide TlvBytes, IsValid, Encodable;
    ValidIsEncodable(MeshCoP, t);
    ParseConcat(MeshCoP, payload, TlvBytes(t), map[]);
    ParseStream(MeshCoP, [t], [], tlvs);
    assert Stream([t]) == TlvBytes(t) + Stream([]);
    assert Stream([t]) + [] == TlvBytes(t);
    assert LastWins(MeshCoP, [t], tlvs) == LastWins(MeshCoP, [], tlvs[t.typ := t.value]);
  }

  lemma {:induction false} AllFieldsEncoded(payload: ByteArray, fields: seq<Field>)
    requires EncodeFields(payload, fields).Ok?
    ensures forall f :: f in fields && f.present ==> f.value.Ok? && IsValid(MeshCoP, f.typ, f.value.value)
    decreases |fields|
  {
    hide TlvBytes, IsValid;
    if fields == [] {
    } else {
      var f := fields[0];
      assert fields == [f] + fields[1..];
      AllFieldsEncoded(if f.present then payload + TlvBytes(Tlv(f.typ, f.value.value)) else payload, fields[1..]);
    }
  }

  /** No two fields of a table share a type. */
  predicate DistinctTypes(fields: seq<Field>) {
    forall i, j :: 0 <= i < j < |fields| ==> fields[i].typ != fields[j].typ
  }

  /** In the TLV set of a table, a field's TLV is there exactly when the field is present. */
  lemma {:induction false} FieldLookup(fields: seq<Field>, tlvs: TlvSet)
    requires DistinctTypes(fields)
    requires forall f :: f in fields ==> f.typ !in tlvs && (f.present ==> f.value.Ok?)
    ensures forall t :: t in tlvs ==> t in FieldSet(fields, tlvs) && FieldSet(fields, tlvs)[t] == tlvs[t]
    ensures forall f :: f in fields ==> (f.typ in FieldSet(fields, tlvs) <==> f.present)
    ensures forall f :: f in fields && f.present ==> FieldSet(fields, tlvs)[f.typ] == f.value.value
    decreases |fields|
  {
    if fields != [] {
      FieldAt(fields);
    }
    if fields != [] {
      var f, rest := fields[0], fields[1..];
      FieldLookup(rest, if f.present then tlvs[f.typ := f.value.value] else tlvs);
      if !f.present {
        FieldAbsent(rest, tlvs, f.typ);
      }
    }
  }

  lemma FieldAt(fields: seq<Field>)
    requires fields != [] && DistinctTypes(fields)
    ensures DistinctTypes(fields[1..])
    ensures forall f :: f in fields <==> f == fields[0] || f in fields[1..]
    ensures forall f :: f in fields[1..] ==> f.typ != fields[0].typ
  {
    assert fields == [fields[0]] + fields[1..];
  }

  lemma {:induction false} FieldAbsent(fields: seq<Field>, tlvs: TlvSet, typ: Byte)
    requires typ !in tlvs && forall f :: f in fields ==> f.typ != typ
    ensures typ !in FieldSet(fields, tlvs)
    decreases |fields|
  {
    if fields == [] {
    } else {
      var f := fields[0];
      assert f in fields;
      FieldAbsent(fields[1..], if f.present && f.value.Ok? then tlvs[f.typ := f.value.value] else tlvs, typ);
    }
  }
}
