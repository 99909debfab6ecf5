/**
 Thread TLVs of src/library/tlv.cpp and src/library/tlv.hpp.

 A TLV set (`std::map<Type, TlvPtr>`) is a map from type to value: every TLV in it
 has the scope the set was read with.
 */
module Tlv {
  import opened Outcomes
  import opened Bytes

  /** A length byte of 255 says that a two-byte length follows. */
  const ESCAPE_LENGTH: Byte := 0xFF

  datatype Scope = MeshCoP | Thread | MeshLink

  const CHANNEL: Byte := 0
  const PAN_ID: Byte := 1
  const EXTENDED_PAN_ID: Byte := 2
  const NETWORK_NAME: Byte := 3
  const PSKC: Byte := 4
  const NETWORK_MASTER_KEY: Byte := 5
  const NETWORK_KEY_SEQUENCE_COUNTER: Byte := 6
  const NETWORK_MESH_LOCAL_PREFIX: Byte := 7
  const STEERING_DATA: Byte := 8
  const BORDER_AGENT_LOCATOR: Byte := 9
  const COMMISSIONER_ID: Byte := 10
  const COMMISSIONER_SESSION_ID: Byte := 11
  const SECURITY_POLICY: Byte := 12
  const ACTIVE_TIMESTAMP: Byte := 14
  const STATE: Byte := 16
  const JOINER_DTLS_ENCAPSULATION: Byte := 17
  const JOINER_UDP_PORT: Byte := 18
  const UDP_ENCAPSULATION: Byte := 48
  const IPV6_ADDRESS: Byte := 49
  const PENDING_TIMESTAMP: Byte := 51
  const DELAY_TIMER: Byte := 52
  const CHANNEL_MASK: Byte := 53
  const DOMAIN_PREFIX: Byte := 60
  const AE_STEERING_DATA: Byte := 61
  const NMKP_STEERING_DATA: Byte := 62
  const COMMISSIONER_TOKEN: Byte := 63
  const COMMISSIONER_SIGNATURE: Byte := 64
  const AE_UDP_PORT: Byte := 65
  const NMKP_UDP_PORT: Byte := 66
  const COMMISSIONER_PEN_SIGNATURE: Byte := 70

  datatype Tlv = Tlv(typ: Byte, value: ByteArray)

  type TlvSet = map<Byte, ByteArray>

  predicate IsExtendedTlv(typ: Byte) {
    typ in {UDP_ENCAPSULATION, COMMISSIONER_TOKEN, JOINER_DTLS_ENCAPSULATION}
  }

  /** `Tlv::IsValid`: the length must fit 16 bits and suit the type. */
  predicate IsValid(scope: Scope, typ: Byte, value: ByteArray) {
    |value| < 0x1_0000 &&
    match scope
    case Thread => IsValidThreadLength(typ, |value|)
    case MeshLink => false
    case MeshCoP => IsValidMeshCoPLength(typ, |value|)
  }

  predicate IsValidThreadLength(typ: Byte, length: nat) {
    match typ
    case 4 => length == 1
    case 11 => length == 4
    case 14 => length % 16 == 0 && 1 <= length / 16 <= 15
    case 15 => length == 2
    case 63 => true
    case 64 => length < ESCAPE_LENGTH
    case _ => false
  }

  predicate IsValidMeshCoPLength(typ: Byte, length: nat) {
    if typ in {CHANNEL} then length == 3
    else if typ in {STATE, 54} then length == 1
    else if typ in {PAN_ID, BORDER_AGENT_LOCATOR, COMMISSIONER_SESSION_ID, 15, JOINER_UDP_PORT, 20, 55, 56,
                    AE_UDP_PORT, NMKP_UDP_PORT, 128, 129} then length == 2
    else if typ in {NETWORK_KEY_SEQUENCE_COUNTER, DELAY_TIMER} then length == 4
    else if typ in {EXTENDED_PAN_ID, NETWORK_MESH_LOCAL_PREFIX, ACTIVE_TIMESTAMP, PENDING_TIMESTAMP, 19} then length == 8
    else if typ in {NETWORK_MASTER_KEY, 21, IPV6_ADDRESS, 68} then length == 16
    else if typ in {NETWORK_NAME, PSKC, STEERING_DATA, 35, 59, AE_STEERING_DATA, NMKP_STEERING_DATA} then length <= 16
    else if typ in {33, 34} then length <= 32
    else if typ in {COMMISSIONER_ID, 32, 36} then length <= 64
    else if typ == SECURITY_POLICY then 3 <= length <= 4
    else if typ in {CHANNEL_MASK, 13, 57, 58, 37, COMMISSIONER_SIGNATURE, 67, 69, COMMISSIONER_PEN_SIGNATURE} then
      length < ESCAPE_LENGTH
    else if typ == UDP_ENCAPSULATION then length >= 4
    else typ in {JOINER_DTLS_ENCAPSULATION, DOMAIN_PREFIX, COMMISSIONER_TOKEN}
  }

  // ---------------------------------------------------------------------------
  // One TLV
  // ---------------------------------------------------------------------------

  /** Type and length: three length bytes for the extended types, otherwise one, cut to 8 bits. */
  function HeadBytes(typ: Byte, length: nat): ByteArray {
    [typ] + if IsExtendedTlv(typ) then [ESCAPE_LENGTH] + BigEndian(2, length) else [length % 256]
  }

  function TlvBytes(t: Tlv): ByteArray {
    HeadBytes(t.typ, |t.value|) + t.value
  }

  /** `Tlv::Serialize`: append a valid TLV to a buffer. */
  method Serialize(scope: Scope, t: Tlv, aBuf: ByteArray) returns (buf: ByteArray)
    requires IsValid(scope, t.typ, t.value)
    ensures buf == aBuf + TlvBytes(t)
  {
    buf := aBuf + [t.typ];
    if IsExtendedTlv(t.typ) {
      buf := buf + [ESCAPE_LENGTH];
      buf := Encode(buf, 2, |t.value|);
    } else {
      buf := buf + [|t.value| % 256];
    }
    assert buf == aBuf + HeadBytes(t.typ, |t.value|);
    buf := buf + t.value;
  }

  datatype ParsedTlv = ParsedTlv(tlv: Tlv, size: nat)

  /** The TLV at the start of `rest`. */
  function ParseTlv(rest: ByteArray): (r: Outcome<ParsedTlv>)
    ensures r.Ok? ==> 2 <= r.value.size <= |rest| && |r.value.tlv.value| < 0x1_0000
    ensures !r.Ok? ==> r == Err(BadFormat)
  {
    if |rest| < 2 then Err(BadFormat)
    else if rest[1] == ESCAPE_LENGTH && |rest| < 4 then Err(BadFormat)
    else
      var head := if rest[1] == ESCAPE_LENGTH then 4 else 2;
      var length := if rest[1] == ESCAPE_LENGTH then Pair(rest[2], rest[3]) else rest[1];
      if head + length > |rest| then Err(BadFormat)
      else Ok(ParsedTlv(Tlv(rest[0], rest[head..head + length]), head + length))
  }

  /** `Tlv::Deserialize`: the TLV at `aOffset` and the offset behind it. */
  method Deserialize(aBuf: ByteArray, aOffset: nat) returns (r: Outcome<(Tlv, nat)>)
    requires aOffset <= |aBuf|
    ensures r == match ParseTlv(aBuf[aOffset..])
                 case Ok(p) => Ok((p.tlv, aOffset + p.size))
                 case Err(e) => Err(e)
                 case Aborted => Aborted
  {
    var offset := aOffset;
    if offset + 2 > |aBuf| {
      return Err(BadFormat);
    }
    var typ, length: nat := aBuf[offset], aBuf[offset + 1];
    offset := offset + 2;
    if length == ESCAPE_LENGTH {
      if offset + 2 > |aBuf| {
        return Err(BadFormat);
      }
      length := Pair(aBuf[offset], aBuf[offset + 1]);
      offset := offset + 2;
    }
    if offset + length > |aBuf| {
      return Err(BadFormat);
    }
    SliceOfSuffix(aBuf, aOffset, offset - aOffset, offset - aOffset + length);
    r := Ok((Tlv(typ, aBuf[offset..offset + length]), offset + length));
  }

  /** A one-byte length can tell neither 255 nor anything above. */
  predicate Encodable(t: Tlv) {
    |t.value| < if IsExtendedTlv(t.typ) then 0x1_0000 else ESCAPE_LENGTH
  }

  lemma ParseTlvOfBytes(t: Tlv, rest: ByteArray)
    requires Encodable(t)
    ensures ParseTlv(TlvBytes(t) + rest) == Ok(ParsedTlv(t, |TlvBytes(t)|))
  {
    hide ParseTlv, BigEndian, Pair;
    var length, more := |t.value|, t.value + rest;
    if IsExtendedTlv(t.typ) {
      TwoDigits(length);
      assert TlvBytes(t) + rest == [t.typ, ESCAPE_LENGTH, length / 256, length % 256] + more;
      ParseLongForm(t.typ, length / 256, length % 256, t.value, rest);
    } else {
      assert TlvBytes(t) + rest == [t.typ, length] + more;
      ParseShortForm(t.typ, t.value, rest);
    }
  }

  lemma ParseShortForm(typ: Byte, value: ByteArray, rest: ByteArray)
    requires |value| < ESCAPE_LENGTH
    ensures ParseTlv([typ, |value|] + (value + rest)) == Ok(ParsedTlv(Tlv(typ, value), 2 + |value|))
  {
    assert ([typ, |value|] + (value + rest))[2..2 + |value|] == value;
  }

  lemma ParseLongForm(typ: Byte, hi: Byte, lo: Byte, value: ByteArray, rest: ByteArray)
    requires |value| == Pair(hi, lo)
    ensures ParseTlv([typ, ESCAPE_LENGTH, hi, lo] + (value + rest)) == Ok(ParsedTlv(Tlv(typ, value), 4 + |value|))
  {
    assert ([typ, ESCAPE_LENGTH, hi, lo] + (value + rest))[4..4 + |value|] == value;
  }

  /** A TLV comes back from its own encoding exactly when its length can be told. */
  lemma TlvRoundTripIffEncodable(t: Tlv)
    requires |t.value| < 0x1_0000
    ensures ParseTlv(TlvBytes(t)) == Ok(ParsedTlv(t, |TlvBytes(t)|)) <==> Encodable(t)
  {
    assert TlvBytes(t) + [] == TlvBytes(t);
    if Encodable(t) {
      ParseTlvOfBytes(t, []);
    }
  }

  /** Among valid TLVs only a Domain Prefix can be too long for its length byte. */
  lemma ValidIsEncodable(scope: Scope, t: Tlv)
    requires IsValid(scope, t.typ, t.value)
    ensures Encodable(t) <==> !(scope == MeshCoP && t.typ == DOMAIN_PREFIX && |t.value| >= ESCAPE_LENGTH)
  {
  }

  /** A valid Domain Prefix of 255 bytes is not read back. */
  lemma LongDomainPrefixIsLost(value: ByteArray)
    requires |value| == 255
    ensures var t := Tlv(DOMAIN_PREFIX, value);
            IsValid(MeshCoP, DOMAIN_PREFIX, value) && ParseTlv(TlvBytes(t)) != Ok(ParsedTlv(t, |TlvBytes(t)|))
  {
    hide ParseTlv, TlvBytes;
    TlvRoundTripIffEncodable(Tlv(DOMAIN_PREFIX, value));
  }

  // ---------------------------------------------------------------------------
  // TLV sets
  // ---------------------------------------------------------------------------

  /** Put a parsed TLV into a set; invalid and unknown ones are dropped. */
  function Kept(scope: Scope, t: Tlv, tlvs: TlvSet): TlvSet {
    if IsValid(scope, t.typ, t.value) then tlvs[t.typ := t.value] else tlvs
  }

  function ParseTlvs(scope: Scope, rest: ByteArray, tlvs: TlvSet): (r: Outcome<TlvSet>)
    ensures !r.Ok? ==> r == Err(BadFormat)
    decreases |rest|
  {
    if rest == [] then Ok(tlvs)
    else
      var p :- ParseTlv(rest);
      ParseTlvs(scope, rest[p.size..], Kept(scope, p.tlv, tlvs))
  }

  /** `GetTlvSet`. */
  method GetTlvSet(scope: Scope, aBuf: ByteArray) returns (r: Outcome<TlvSet>)
    ensures r == ParseTlvs(scope, aBuf, map[])
  {
    hide ParseTlv, IsValid;
    var tlvs: TlvSet := map[];
    var offset: nat := 0;
    assert aBuf[0..] == aBuf;
    while offset < |aBuf|
      invariant offset <= |aBuf|
      invariant ParseTlvs(scope, aBuf[offset..], tlvs) == ParseTlvs(scope, aBuf, map[])
    {
      var o := Deserialize(aBuf, offset);
      if !o.Ok? {
        return o.PropagateFailure();
      }
      var (tlv, next) := o.value;
      assert aBuf[offset..][next - offset..] == aBuf[next..];
      if IsValid(scope, tlv.typ, tlv.value) {
        tlvs := tlvs[tlv.typ := tlv.value];
      }
      offset := next;
    }
    assert aBuf[offset..] == [];
    r := Ok(tlvs);
  }

  /** Every TLV of a set obtained from the wire is valid, whatever the wire held. */
  lemma {:induction false} ParsedTlvsAreValid(scope: Scope, rest: ByteArray, tlvs: TlvSet)
    requires ParseTlvs(scope, rest, tlvs).Ok?
    requires forall t :: t in tlvs ==> IsValid(scope, t, tlvs[t])
    ensures var s := ParseTlvs(scope, rest, tlvs).value;
            forall t :: t in s ==> IsValid(scope, t, s[t])
    decreases |rest|
  {
    hide ParseTlv, IsValid;
    if rest == [] {
    } else {
      var p := ParseTlv(rest).value;
      ParsedTlvsAreValid(scope, rest[p.size..], Kept(scope, p.tlv, tlvs));
    }
  }

  function Stream(list: seq<Tlv>): ByteArray {
    if list == [] then [] else TlvBytes(list[0]) + Stream(list[1..])
  }

  /** The set that a list of TLVs amounts to: of several with one type the last one wins. */
  function LastWins(scope: Scope, list: seq<Tlv>, tlvs: TlvSet): TlvSet {
    if list == [] then tlvs else LastWins(scope, list[1..], Kept(scope, list[0], tlvs))
  }

  /** Reading the concatenation of any encodable TLVs succeeds and gives their last-wins set. */
  lemma {:induction false} ParseStream(scope: Scope, list: seq<Tlv>, rest: ByteArray, tlvs: TlvSet)
    requires forall t :: t in list ==> Encodable(t)
    ensures ParseTlvs(scope, Stream(list) + rest, tlvs) == ParseTlvs(scope, rest, LastWins(scope, list, tlvs))
  {
    hide ParseTlv, IsValid, TlvBytes, Encodable;
    if list == [] {
      assert Stream(list) + rest == rest;
    } else {
      assert list[0] in list;
      var first, more := TlvBytes(list[0]), Stream(list[1..]) + rest;
      assert Stream(list) + rest == first + more;
      ParseTlvOfBytes(list[0], more);
      assert (first + more)[|first|..] == more;
      ParseStream(scope, list[1..], rest, Kept(scope, list[0], tlvs));
    }
  }

  /** Reading distributes over concatenation: the first part must be well formed by itself. */
  lemma {:induction false} ParseConcat(scope: Scope, a: ByteArray, b: ByteArray, tlvs: TlvSet)
    requires ParseTlvs(scope, a, tlvs).Ok?
    ensures ParseTlvs(scope, a + b, tlvs) == ParseTlvs(scope, b, ParseTlvs(scope, a, tlvs).value)
    decreases |a|
  {
    hide ParseTlv, IsValid;
    if a == [] {
      assert a + b == b;
    } else {
      ParseTlvPrefix(a, b);
      var p := ParseTlv(a).value;
      assert (a + b)[p.size..] == a[p.size..] + b;
      ParseConcat(scope, a[p.size..], b, Kept(scope, p.tlv, tlvs));
    }
  }

  lemma ParseTlvPrefix(a: ByteArray, b: ByteArray)
    requires ParseTlv(a).Ok?
    ensures ParseTlv(a + b) == ParseTlv(a)
  {
    var p := ParseTlv(a).value;
    var head := p.size - |p.tlv.value|;
    assert (a + b)[head..p.size] == a[head..p.size];
  }

  /** Starting from a non-empty set only adds what the stream does not override. */
  lemma {:induction false} ParseOnto(scope: Scope, rest: ByteArray, tlvs: TlvSet)
    ensures ParseTlvs(scope, rest, tlvs).Ok? == ParseTlvs(scope, rest, map[]).Ok?
    ensures ParseTlvs(scope, rest, map[]).Ok? ==>
              ParseTlvs(scope, rest, tlvs).value == tlvs + ParseTlvs(scope, rest, map[]).value
    decreases |rest|
  {
    hide ParseTlv, IsValid;
    if rest != [] && ParseTlv(rest).Ok? {
      var p := ParseTlv(rest).value;
      var more := rest[p.size..];
      ParseOnto(scope, more, Kept(scope, p.tlv, tlvs));
      ParseOnto(scope, more, Kept(scope, p.tlv, map[]));
    }
  }
}
