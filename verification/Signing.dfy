/**
 The content that a CCM commissioner signs (section 12.5.5 of the Thread 1.2
 specification), as src/library/token_manager.cpp prepares it.
 */
module Signing {
  import opened Outcomes
  import opened Bytes
  import opened Tlv
  import Tlvs = Tlv
  import opened DatasetCodec
  import opened CoapOption
  import opened CoapMessage
  import opened ServiceUri

  const TYPES := 256

  /** `IsDatasetParameter`. */
  predicate IsDatasetParameter(active: bool, typ: Byte) {
    || typ in {ACTIVE_TIMESTAMP, CHANNEL, CHANNEL_MASK, EXTENDED_PAN_ID, NETWORK_MESH_LOCAL_PREFIX, NETWORK_MASTER_KEY,
               NETWORK_NAME, PAN_ID, PSKC, SECURITY_POLICY}
    || (!active && typ in {DELAY_TIMER, PENDING_TIMESTAMP})
  }

  /** The kind of request being signed. */
  datatype Kind = ActiveSet | PendingSet | Other

  function KindOf(uri: ByteArray): Kind {
    if uri == MGMT_PENDING_SET then PendingSet else if uri == MGMT_ACTIVE_SET then ActiveSet else Other
  }

  predicate ShouldBeSerialized(typ: Byte, kind: Kind) {
    match kind
    case PendingSet => typ != DELAY_TIMER && IsDatasetParameter(false, typ)
    case ActiveSet => IsDatasetParameter(true, typ)
    case Other => typ !in {COMMISSIONER_TOKEN, COMMISSIONER_SIGNATURE, COMMISSIONER_PEN_SIGNATURE}
  }

  /** The leader's URI stands for the one the commissioner uses towards the border agent. */
  function SigningUri(uri: ByteArray): ByteArray {
    if uri == PETITIONING then LEADER_PETITIONING
    else if uri == KEEP_ALIVE then LEADER_KEEP_ALIVE
    else uri
  }

  /** The TLVs to be signed with type `n` or more, in ascending order of type. */
  function SignedTlvs(tlvs: TlvSet, kind: Kind, n: nat): ByteArray
    requires n <= TYPES
    decreases TYPES - n
  {
    if n == TYPES then []
    else if n in tlvs && ShouldBeSerialized(n, kind) then
      TlvBytes(Tlv(n, tlvs[n])) + SignedTlvs(tlvs, kind, n + 1)
    else SignedTlvs(tlvs, kind, n + 1)
  }

  /** The Uri-Path options of the signing URI. */
  function SignedPath(uri: ByteArray): Outcome<ByteArray> {
    var options :- SetUriPath(map[], SigningUri(uri));
    OptionsBytes(options, 0, 0)
  }

  function SigningContent(uri: ByteArray, payload: ByteArray): Outcome<ByteArray> {
    var path :- SignedPath(uri);
    var tlvs :- SetOf(payload);
    Ok(path + SignedTlvs(tlvs, KindOf(uri), 0))
  }

  /** `TokenManager::PrepareSigningContent`. */
  method PrepareSigningContent(m: Message) returns (r: Outcome<ByteArray>)
    ensures r == if URI_PATH in m.options then SigningContent(m.options[URI_PATH], m.payload) else Err(InvalidArgs)
  {
    hide TlvBytes, ParseTlvs, IsValid, ShouldBeSerialized, OptionsBytes, SetUriPath;
    if URI_PATH !in m.options {
      return Err(InvalidArgs);
    }
    var uri := m.options[URI_PATH];
    var signingUri := uri;
    if uri == PETITIONING {
      signingUri := LEADER_PETITIONING;
    } else if uri == KEEP_ALIVE {
      signingUri := LEADER_KEEP_ALIVE;
    }
    var options := SetUriPath(map[], signingUri);
    if !options.Ok? {
      return options.PropagateFailure();
    }
    var header := Header(VERSION_1, m.header.typ, 0, m.header.code, 0, []);
    var serialized := CoapMessage.Serialize(Message(header, options.value, []));
    if !serialized.Ok? {
      return serialized;
    }
    var content := serialized.value[HeaderSize(header)..];
    assert content == OptionsBytes(options.value, 0, 0).value;
    var tlvs := GetTlvSet(MeshCoP, m.payload);
    assert tlvs == SetOf(m.payload);
    if !tlvs.Ok? {
      return tlvs.PropagateFailure();
    }
    ghost var goal := content + SignedTlvs(tlvs.value, KindOf(uri), 0);
    for typ := 0 to TYPES
      invariant content + SignedTlvs(tlvs.value, KindOf(uri), typ) == goal
    {
      if typ in tlvs.value && ShouldBeSerialized(typ, KindOf(uri)) {
        assert IsValid(MeshCoP, typ, tlvs.value[typ]);
        content := Tlvs.Serialize(MeshCoP, Tlv(typ, tlvs.value[typ]), content);
      }
    }
    assert SignedTlvs(tlvs.value, KindOf(uri), TYPES) == [] && content + [] == content;
    r := Ok(content);
  }

  // ---------------------------------------------------------------------------
  // Canonical form
  // ---------------------------------------------------------------------------

  /** The part of a TLV set that is signed. */
  ghost function Signed(tlvs: TlvSet, kind: Kind): TlvSet {
    map t | t in tlvs && ShouldBeSerialized(t, kind) :: tlvs[t]
  }

  lemma {:induction false} SignedTlvsDependOn(a: TlvSet, b: TlvSet, kind: Kind, n: nat)
    requires n <= TYPES
    requires Signed(a, kind) == Signed(b, kind)
    ensures SignedTlvs(a, kind, n) == SignedTlvs(b, kind, n)
    decreases TYPES - n
  {
    hide TlvBytes, ShouldBeSerialized;
    if n < TYPES {
      assert n in Signed(a, kind) <==> n in Signed(b, kind);
      assert n in Signed(a, kind) ==> Signed(a, kind)[n] == a[n] && Signed(b, kind)[n] == b[n];
      SignedTlvsDependOn(a, b, kind, n + 1);
    }
  }

  /** A TLV that is not signed, or that the parser drops, can be appended without changing the content. */
  lemma AppendUnsigned(uri: ByteArray, payload: ByteArray, t: Tlv)
    requires SigningContent(uri, payload).Ok?
    requires Encodable(t) && (ShouldBeSerialized(t.typ, KindOf(uri)) ==> !IsValid(MeshCoP, t.typ, t.value))
    ensures SigningContent(uri, payload + TlvBytes(t)) == SigningContent(uri, payload)
  {
    hide TlvBytes, ParseTlvs, IsValid, ShouldBeSerialized, SignedPath, SignedTlvs, Encodable;
    var tlvs := SetOf(payload).value;
    ParseConcat(MeshCoP, payload, TlvBytes(t), map[]);
    ParseStream(MeshCoP, [t], [], tlvs);
    assert Stream([t]) == TlvBytes(t) + Stream([]);
    assert Stream([t]) + [] == TlvBytes(t);
    assert LastWins(MeshCoP, [t], tlvs) == LastWins(MeshCoP, [], Kept(MeshCoP, t, tlvs));
    NothingMore(Kept(MeshCoP, t, tlvs));
    assert SetOf(payload + TlvBytes(t)) == Ok(Kept(MeshCoP, t, tlvs));
    assert Signed(Kept(MeshCoP, t, tlvs), KindOf(uri)) == Signed(tlvs, KindOf(uri));
    SignedTlvsDependOn(Kept(MeshCoP, t, tlvs), tlvs, KindOf(uri), 0);
  }

  lemma NothingMore(tlvs: TlvSet)
    ensures ParseTlvs(MeshCoP, [], tlvs) == Ok(tlvs)
  {
  }

  /** What `SignRequest` appends after signing does not change what a verifier computes. */
  lemma SignatureIsNotSigned(uri: ByteArray, payload: ByteArray, token: ByteArray, signature: ByteArray)
    requires SigningContent(uri, payload).Ok?
    requires |token| < 0x1_0000 && |signature| < ESCAPE_LENGTH
    ensures var appended := payload + TlvBytes(Tlv(COMMISSIONER_TOKEN, token));
            var signed := TlvBytes(Tlv(COMMISSIONER_SIGNATURE, signature));
            && SigningContent(uri, appended + signed) == SigningContent(uri, payload)
            && SigningContent(uri, payload + signed) == SigningContent(uri, payload)
  {
    hide TlvBytes, SigningContent;
    AppendUnsigned(uri, payload, Tlv(COMMISSIONER_TOKEN, token));
    AppendUnsigned(uri, payload, Tlv(COMMISSIONER_SIGNATURE, signature));
    AppendUnsigned(uri, payload + TlvBytes(Tlv(COMMISSIONER_TOKEN, token)), Tlv(COMMISSIONER_SIGNATURE, signature));
  }

  /** The Delay Timer of a pending-set request is not signed. */
  lemma DelayTimerIsNotSigned(payload: ByteArray, other: ByteArray)
    requires SetOf(payload).Ok? && SetOf(other).Ok?
    requires SetOf(payload).value - {DELAY_TIMER} == SetOf(other).value - {DELAY_TIMER}
    ensures SigningContent(MGMT_PENDING_SET, payload) == SigningContent(MGMT_PENDING_SET, other)
  {
    hide SetOf, SignedPath, SignedTlvs, IsDatasetParameter;
    var (a, b) := (SetOf(payload).value, SetOf(other).value);
    assert Signed(a, PendingSet) == Signed(a - {DELAY_TIMER}, PendingSet);
    assert Signed(b, PendingSet) == Signed(b - {DELAY_TIMER}, PendingSet);
    SignedTlvsDependOn(a, b, PendingSet, 0);
  }

  /** A commissioner and the leader behind the border agent sign and check the same content. */
  lemma LeaderSeesTheSameContent(payload: ByteArray)
    ensures SigningContent(PETITIONING, payload) == SigningContent(LEADER_PETITIONING, payload)
    ensures SigningContent(KEEP_ALIVE, payload) == SigningContent(LEADER_KEEP_ALIVE, payload)
  {
    hide SetOf, SetUriPath, OptionsBytes, SignedTlvs;
    assert PETITIONING[3] != LEADER_PETITIONING[3] && KEEP_ALIVE[3] != LEADER_KEEP_ALIVE[3];
    assert KindOf(PETITIONING) == KindOf(LEADER_PETITIONING) == KindOf(KEEP_ALIVE) == KindOf(LEADER_KEEP_ALIVE) == Other;
  }

  // ---------------------------------------------------------------------------
  // Order of the TLVs
  // ---------------------------------------------------------------------------

  predicate TypesDiffer(list: seq<Tlv>) {
    forall i, j :: 0 <= i < j < |list| ==> list[i].typ != list[j].typ
  }

  /** The set of a list with distinct types holds exactly the valid TLVs of the list. */
  lemma {:induction false} LastWinsHolds(list: seq<Tlv>, tlvs: TlvSet, typ: Byte, value: ByteArray)
    requires TypesDiffer(list) && forall t :: t in list ==> t.typ !in tlvs
    ensures Holds(LastWins(MeshCoP, list, tlvs), typ, value) <==>
            Holds(tlvs, typ, value) || (Tlv(typ, value) in list && IsValid(MeshCoP, typ, value))
  {
    hide IsValid, TypesDiffer;
    if list == [] {
    } else {
      HeadDiffers(list);
      LastWinsHolds(list[1..], Kept(MeshCoP, list[0], tlvs), typ, value);
    }
  }

  lemma HeadDiffers(list: seq<Tlv>)
    requires list != [] && TypesDiffer(list)
    ensures TypesDiffer(list[1..])
    ensures forall t :: t in list <==> t == list[0] || t in list[1..]
    ensures forall t :: t in list[1..] ==> t.typ != list[0].typ
  {
    assert list == [list[0]] + list[1..];
  }

  predicate Holds(tlvs: TlvSet, typ: Byte, value: ByteArray) {
    typ in tlvs && tlvs[typ] == value
  }

  /** The content does not depend on the order of the TLVs in the payload. */
  lemma OrderDoesNotMatter(uri: ByteArray, a: seq<Tlv>, b: seq<Tlv>)
    requires TypesDiffer(a) && TypesDiffer(b) && multiset(a) == multiset(b)
    requires forall t :: t in a ==> Encodable(t)
    ensures SigningContent(uri, Stream(a)) == SigningContent(uri, Stream(b))
  {
    hide IsValid, Encodable, SignedPath, SignedTlvs, ParseTlvs, LastWins;
    assert forall t :: t in a <==> t in multiset(a);
    assert forall t :: t in b <==> t in multiset(b);
    var (m, n) := (LastWins(MeshCoP, a, map[]), LastWins(MeshCoP, b, map[]));
    forall typ, value ensures Holds(m, typ, value) <==> Holds(n, typ, value) {
      LastWinsHolds(a, map[], typ, value);
      LastWinsHolds(b, map[], typ, value);
    }
    assert forall typ :: typ in m ==> Holds(m, typ, m[typ]);
    assert forall typ :: typ in n ==> Holds(n, typ, n[typ]);
    assert m == n;
    SetOfStream(a);
    SetOfStream(b);
  }

  lemma SetOfStream(list: seq<Tlv>)
    requires forall t :: t in list ==> Encodable(t)
    ensures SetOf(Stream(list)) == Ok(LastWins(MeshCoP, list, map[]))
  {
    hide IsValid, Encodable, TlvBytes;
    ParseStream(MeshCoP, list, [], map[]);
    assert Stream(list) + [] == Stream(list);
  }

  // ---------------------------------------------------------------------------
  // The content tells the signed TLVs
  // ---------------------------------------------------------------------------

  /** Reading the TLV part of the content back gives the signed part of the set. */
  lemma {:induction false} ParseSigned(tlvs: TlvSet, kind: Kind, n: nat, seen: TlvSet)
    requires n <= TYPES
    requires forall t :: t in Signed(tlvs, kind) ==> IsValid(MeshCoP, t, tlvs[t]) && Encodable(Tlv(t, tlvs[t]))
    requires forall t :: t in seen <==> t in Signed(tlvs, kind) && t < n
    requires forall t :: t in seen ==> seen[t] == tlvs[t]
    ensures ParseTlvs(MeshCoP, SignedTlvs(tlvs, kind, n), seen) == Ok(Signed(tlvs, kind))
    decreases TYPES - n
  {
    hide IsValid, Encodable, TlvBytes, ShouldBeSerialized, ParseTlvs;
    if n == TYPES {
      assert seen == Signed(tlvs, kind);
      NothingMore(seen);
    } else if n in tlvs && ShouldBeSerialized(n, kind) {
      var t := Tlv(n, tlvs[n]);
      assert n in Signed(tlvs, kind);
      ParseStream(MeshCoP, [t], SignedTlvs(tlvs, kind, n + 1), seen);
      assert Stream([t]) == TlvBytes(t) + Stream([]);
      assert Stream([t]) == TlvBytes(t);
      assert LastWins(MeshCoP, [t], seen) == LastWins(MeshCoP, [], Kept(MeshCoP, t, seen));
      ParseSigned(tlvs, kind, n + 1, seen[n := tlvs[n]]);
    } else {
      ParseSigned(tlvs, kind, n + 1, seen);
    }
  }

  /** A Domain Prefix that is signed but too long for its length byte. */
  predicate SignsLongPrefix(uri: ByteArray, tlvs: TlvSet) {
    ShouldBeSerialized(DOMAIN_PREFIX, KindOf(uri)) && DOMAIN_PREFIX in tlvs && |tlvs[DOMAIN_PREFIX]| >= ESCAPE_LENGTH
  }

  /**
   For one URI, two payloads have the same content exactly when they agree on every TLV
   that is to be signed; a long Domain Prefix is set aside where it is signed.
   */
  lemma SameContentIffSameSignedTlvs(uri: ByteArray, a: ByteArray, b: ByteArray)
    requires SigningContent(uri, a).Ok? && SigningContent(uri, b).Ok?
    requires !SignsLongPrefix(uri, SetOf(a).value) && !SignsLongPrefix(uri, SetOf(b).value)
    ensures SigningContent(uri, a) == SigningContent(uri, b) <==>
            Signed(SetOf(a).value, KindOf(uri)) == Signed(SetOf(b).value, KindOf(uri))
  {
    hide SignedPath, SignedTlvs, ParseTlvs, ShouldBeSerialized, SignsLongPrefix;
    var (m, n) := (SetOf(a).value, SetOf(b).value);
    SameTlvsIffSameSigned(uri, m, n);
    var path := SignedPath(uri).value;
    assert (path + SignedTlvs(m, KindOf(uri), 0))[|path|..] == SignedTlvs(m, KindOf(uri), 0);
    assert (path + SignedTlvs(n, KindOf(uri), 0))[|path|..] == SignedTlvs(n, KindOf(uri), 0);
  }

  /** The path part of the content of a service, which is that of the URI it is signed under. */
  lemma ServicePath(c: Letter, x: Letter, y: Letter) returns (d: Letter, w: Letter, z: Letter)
    ensures SigningUri(Service(c, x, y)) == Service(d, w, z)
    ensures SignedPath(Service(c, x, y)) == Ok(PathBytes(d, w, z))
  {
    hide OptionsBytes, SetUriPath;
    var uri := SigningUri(Service(c, x, y));
    d, w, z := uri[1], uri[3], uri[4];
    assert uri == Service(d, w, z);
    PathIsSet(d, w, z);
    PathSerialises(d, w, z);
  }

  lemma SameUriSameKind(u: ByteArray, v: ByteArray)
    requires SigningUri(u) == SigningUri(v)
    ensures KindOf(u) == KindOf(v)
  {
    assert PETITIONING[3] == KEEP_ALIVE[3] == 99 && LEADER_PETITIONING[3] == LEADER_KEEP_ALIVE[3] == 108;
    assert MGMT_ACTIVE_SET[3] == 97 && MGMT_PENDING_SET[3] == 112;
  }

  /**
   Over all services: two requests have the same content exactly when they are signed under the
   same URI and agree on every TLV that is to be signed.
   */
  lemma SameContentIffSameRequest(c: Letter, x: Letter, y: Letter, a: ByteArray,
                                  d: Letter, w: Letter, z: Letter, b: ByteArray)
    requires SetOf(a).Ok? && SetOf(b).Ok?
    requires !SignsLongPrefix(Service(c, x, y), SetOf(a).value) && !SignsLongPrefix(Service(d, w, z), SetOf(b).value)
    ensures var (u, v) := (Service(c, x, y), Service(d, w, z));
            && SigningContent(u, a).Ok? && SigningContent(v, b).Ok?
            && (SigningContent(u, a) == SigningContent(v, b) <==>
                && SigningUri(u) == SigningUri(v)
                && Signed(SetOf(a).value, KindOf(u)) == Signed(SetOf(b).value, KindOf(v)))
  {
    hide SignedPath, SignedTlvs, ParseTlvs, ShouldBeSerialized, KindOf, SigningUri, Service, PathBytes;
    var (u, v) := (Service(c, x, y), Service(d, w, z));
    var c', x', y' := ServicePath(c, x, y);
    var d', w', z' := ServicePath(d, w, z);
    PathTells(c', x', y', SignedTlvs(SetOf(a).value, KindOf(u), 0),
              d', w', z', SignedTlvs(SetOf(b).value, KindOf(v), 0));
    if SigningUri(u) == SigningUri(v) {
      SameUriSameKind(u, v);
      SameTlvsIffSameSigned(u, SetOf(a).value, SetOf(b).value);
    }
  }

  lemma PathTells(c: Letter, x: Letter, y: Letter, m: ByteArray, d: Letter, w: Letter, z: Letter, n: ByteArray)
    ensures PathBytes(c, x, y) + m == PathBytes(d, w, z) + n <==> Service(c, x, y) == Service(d, w, z) && m == n
  {
    var (p, q, u, v) := (PathBytes(c, x, y), PathBytes(d, w, z), Service(c, x, y), Service(d, w, z));
    assert (p + m)[..5] == p && (p + m)[5..] == m && (q + n)[..5] == q && (q + n)[5..] == n;
    assert p[1] == u[1] && p[3] == u[3] && p[4] == u[4] && q[1] == v[1] && q[3] == v[3] && q[4] == v[4];
  }

  lemma SameTlvsIffSameSigned(uri: ByteArray, m: TlvSet, n: TlvSet)
    requires AllValid(m) && AllValid(n) && !SignsLongPrefix(uri, m) && !SignsLongPrefix(uri, n)
    ensures SignedTlvs(m, KindOf(uri), 0) == SignedTlvs(n, KindOf(uri), 0) <==>
            Signed(m, KindOf(uri)) == Signed(n, KindOf(uri))
  {
    hide SignedTlvs, ParseTlvs, IsValid, Encodable, ShouldBeSerialized, SignsLongPrefix;
    SignedEncodable(uri, m);
    SignedEncodable(uri, n);
    ParseSigned(m, KindOf(uri), 0, map[]);
    ParseSigned(n, KindOf(uri), 0, map[]);
    if Signed(m, KindOf(uri)) == Signed(n, KindOf(uri)) {
      SignedTlvsDependOn(m, n, KindOf(uri), 0);
    }
  }

  lemma SignedEncodable(uri: ByteArray, tlvs: TlvSet)
    requires AllValid(tlvs) && !SignsLongPrefix(uri, tlvs)
    ensures forall t :: t in Signed(tlvs, KindOf(uri)) ==> IsValid(MeshCoP, t, tlvs[t]) && Encodable(Tlv(t, tlvs[t]))
  {
    hide IsValid, Encodable, ShouldBeSerialized;
    forall t | t in Signed(tlvs, KindOf(uri)) ensures Encodable(Tlv(t, tlvs[t])) {
      ValidIsEncodable(MeshCoP, Tlv(t, tlvs[t]));
    }
  }

  /** The set requests for Active and Pending datasets never sign a Domain Prefix. */
  lemma SetRequestsSignNoPrefix(tlvs: TlvSet)
    ensures !SignsLongPrefix(MGMT_ACTIVE_SET, tlvs) && !SignsLongPrefix(MGMT_PENDING_SET, tlvs)
  {
    assert MGMT_ACTIVE_SET[3] != MGMT_PENDING_SET[3];
  }

  // ---------------------------------------------------------------------------
  // Registering multicast listeners
  // ---------------------------------------------------------------------------

  // Types of the Thread scope. In the MeshCoP scope the same numbers name TLVs of other lengths.
  const THREAD_TIMEOUT: Byte := 11
  const THREAD_IPV6_ADDRESSES: Byte := 14
  const THREAD_SESSION_ID: Byte := 15

  /** The payload that a multicast listener registration has when it is signed. */
  function ListenerPayload(sessionId: ByteArray, timeout: ByteArray, addresses: ByteArray): ByteArray {
    TlvBytes(Tlv(THREAD_SESSION_ID, sessionId)) + TlvBytes(Tlv(THREAD_TIMEOUT, timeout))
    + TlvBytes(Tlv(THREAD_IPV6_ADDRESSES, addresses))
  }

  /**
   A registration is signed over its path and session id alone: its TLVs are read in the MeshCoP
   scope, which drops the timeout and the addresses.
   */
  lemma ListenerContent(sessionId: ByteArray, timeout: ByteArray, addresses: ByteArray)
    requires IsValid(Thread, THREAD_SESSION_ID, sessionId) && IsValid(Thread, THREAD_TIMEOUT, timeout)
    requires IsValid(Thread, THREAD_IPV6_ADDRESSES, addresses)
    ensures SigningContent(MULTICAST_LISTENER, ListenerPayload(sessionId, timeout, addresses))
            == Ok(PathBytes(110, 109, 114) + TlvBytes(Tlv(THREAD_SESSION_ID, sessionId)))
  {
    hide SigningContent, TlvBytes, PathBytes, KindOf, IsValid, Encodable, ShouldBeSerialized;
    var first := TlvBytes(Tlv(THREAD_SESSION_ID, sessionId));
    ThreadLengths(sessionId, timeout, addresses);
    SessionIdContent(sessionId);
    AppendUnsigned(MULTICAST_LISTENER, first, Tlv(THREAD_TIMEOUT, timeout));
    AppendUnsigned(MULTICAST_LISTENER, first + TlvBytes(Tlv(THREAD_TIMEOUT, timeout)),
                   Tlv(THREAD_IPV6_ADDRESSES, addresses));
  }

  lemma ThreadLengths(sessionId: ByteArray, timeout: ByteArray, addresses: ByteArray)
    requires IsValid(Thread, THREAD_SESSION_ID, sessionId) && IsValid(Thread, THREAD_TIMEOUT, timeout)
    requires IsValid(Thread, THREAD_IPV6_ADDRESSES, addresses)
    ensures |sessionId| == 2 && Encodable(Tlv(THREAD_TIMEOUT, timeout)) && Encodable(Tlv(THREAD_IPV6_ADDRESSES, addresses))
    ensures !IsValid(MeshCoP, THREAD_TIMEOUT, timeout) && !IsValid(MeshCoP, THREAD_IPV6_ADDRESSES, addresses)
  {
  }

  lemma SessionIdContent(sessionId: ByteArray)
    requires |sessionId| == 2
    ensures SigningContent(MULTICAST_LISTENER, TlvBytes(Tlv(THREAD_SESSION_ID, sessionId)))
            == Ok(PathBytes(110, 109, 114) + TlvBytes(Tlv(THREAD_SESSION_ID, sessionId)))
  {
    hide SignedPath, TlvBytes, ParseTlvs, PathBytes, SignedTlvs;
    var t := Tlv(THREAD_SESSION_ID, sessionId);
    var tlvs: TlvSet := map[THREAD_SESSION_ID := sessionId];
    assert MULTICAST_LISTENER[1] == 110 && SigningUri(MULTICAST_LISTENER) == MULTICAST_LISTENER;
    var d, w, z := ServicePath(110, 109, 114);
    assert d == MULTICAST_LISTENER[1] && w == MULTICAST_LISTENER[3] && z == MULTICAST_LISTENER[4];
    SetOfStream([t]);
    assert Stream([t]) == TlvBytes(t) + Stream([]) == TlvBytes(t);
    assert LastWins(MeshCoP, [t], map[]) == LastWins(MeshCoP, [], tlvs) == tlvs;
    OneSigned(t);
  }

  lemma OneSigned(t: Tlv)
    requires ShouldBeSerialized(t.typ, Other)
    ensures SignedTlvs(map[t.typ := t.value], Other, 0) == TlvBytes(t)
  {
    hide TlvBytes, ShouldBeSerialized;
    var tlvs: TlvSet := map[t.typ := t.value];
    SkipAbsent(tlvs, Other, 0, t.typ);
    SkipAbsent(tlvs, Other, t.typ + 1, TYPES);
    SignedAt(tlvs, t.typ);
    assert TlvBytes(t) + [] == TlvBytes(t);
  }

  // ---------------------------------------------------------------------------
  // Long Domain Prefixes
  // ---------------------------------------------------------------------------

  const TRI_HOSTNAME: Byte := 67

  lemma {:induction false} SkipAbsent(tlvs: TlvSet, kind: Kind, n: nat, m: nat)
    requires n <= m <= TYPES && forall t :: n <= t < m ==> t !in tlvs
    ensures SignedTlvs(tlvs, kind, n) == SignedTlvs(tlvs, kind, m)
    decreases m - n
  {
    if n == m {
    } else {
      SkipAbsent(tlvs, kind, n + 1, m);
    }
  }

  /**
   Where it is signed, a long Domain Prefix can imitate other TLVs: a payload whose prefix is a hostname
   TLV has the same content as one with an empty prefix followed by that TLV.
   */
  lemma LongPrefixIsAmbiguous(uri: ByteArray, hostname: ByteArray)
    requires KindOf(uri) == Other && |hostname| == 254
    ensures var long := [DOMAIN_PREFIX, ESCAPE_LENGTH, 1, 0, TRI_HOSTNAME, 254] + hostname;
            var short := [DOMAIN_PREFIX, 0, TRI_HOSTNAME, 254] + hostname;
            && SetOf(long).Ok? && SetOf(short).Ok?
            && Signed(SetOf(long).value, Other) != Signed(SetOf(short).value, Other)
            && SigningContent(uri, long) == SigningContent(uri, short)
  {
    hide SignedTlvs, SetOf, SignedPath;
    LongSet(hostname);
    ShortSet(hostname);
    LongContent(hostname);
    ShortContent(hostname);
    var long: TlvSet := map[DOMAIN_PREFIX := [TRI_HOSTNAME, 254] + hostname];
    var short: TlvSet := map[DOMAIN_PREFIX := [], TRI_HOSTNAME := hostname];
    assert TRI_HOSTNAME in Signed(short, Other) && TRI_HOSTNAME !in Signed(long, Other);
  }

  lemma LongSet(hostname: ByteArray)
    requires |hostname| == 254
    ensures SetOf([DOMAIN_PREFIX, ESCAPE_LENGTH, 1, 0, TRI_HOSTNAME, 254] + hostname)
            == Ok(map[DOMAIN_PREFIX := [TRI_HOSTNAME, 254] + hostname])
  {
    hide ParseTlv;
    var value := [TRI_HOSTNAME, 254] + hostname;
    var rest := [DOMAIN_PREFIX, ESCAPE_LENGTH, 1, 0, TRI_HOSTNAME, 254] + hostname;
    EscapedTlv(DOMAIN_PREFIX, value, rest);
    assert rest[260..] == [];
    NothingMore(map[DOMAIN_PREFIX := value]);
  }

  lemma EscapedTlv(typ: Byte, value: ByteArray, rest: ByteArray)
    requires |value| == 256 && rest == [typ, ESCAPE_LENGTH, 1, 0] + value
    ensures ParseTlv(rest) == Ok(ParsedTlv(Tlv(typ, value), 260))
  {
    assert rest[4..260] == value;
  }

  lemma ShortSet(hostname: ByteArray)
    requires |hostname| == 254
    ensures SetOf([DOMAIN_PREFIX, 0, TRI_HOSTNAME, 254] + hostname)
            == Ok(map[DOMAIN_PREFIX := [], TRI_HOSTNAME := hostname])
  {
    hide TlvBytes, ParseTlvs, IsValid, Encodable, Stream;
    var (p, h) := (Tlv(DOMAIN_PREFIX, []), Tlv(TRI_HOSTNAME, hostname));
    ShortStream(hostname);
    SetOfStream([p, h]);
    assert [p, h][1..] == [h] && [h][1..] == [];
    assert LastWins(MeshCoP, [p, h], map[]) == LastWins(MeshCoP, [h], map[DOMAIN_PREFIX := []]);
    assert LastWins(MeshCoP, [h], map[DOMAIN_PREFIX := []])
        == LastWins(MeshCoP, [], map[DOMAIN_PREFIX := [], TRI_HOSTNAME := hostname]);
  }

  lemma ShortStream(hostname: ByteArray)
    requires |hostname| == 254
    ensures var (p, h) := (Tlv(DOMAIN_PREFIX, []), Tlv(TRI_HOSTNAME, hostname));
            && Stream([p, h]) == [DOMAIN_PREFIX, 0, TRI_HOSTNAME, 254] + hostname
            && Encodable(p) && Encodable(h) && IsValid(MeshCoP, p.typ, p.value) && IsValid(MeshCoP, h.typ, h.value)
  {
    hide TlvBytes;
    var (p, h) := (Tlv(DOMAIN_PREFIX, []), Tlv(TRI_HOSTNAME, hostname));
    ShortTlvs(hostname);
    assert Stream([h]) == TlvBytes(h) + Stream([]) == TlvBytes(h);
    assert [p, h][1..] == [h] && Stream([p, h]) == TlvBytes(p) + Stream([h]);
  }

  lemma ShortTlvs(hostname: ByteArray)
    requires |hostname| == 254
    ensures TlvBytes(Tlv(DOMAIN_PREFIX, [])) == [DOMAIN_PREFIX, 0]
    ensures TlvBytes(Tlv(TRI_HOSTNAME, hostname)) == [TRI_HOSTNAME, 254] + hostname
  {
  }

  lemma LongContent(hostname: ByteArray)
    requires |hostname| == 254
    ensures SignedTlvs(map[DOMAIN_PREFIX := [TRI_HOSTNAME, 254] + hostname], Other, 0)
            == [DOMAIN_PREFIX, 0, TRI_HOSTNAME, 254] + hostname
  {
    var value := [TRI_HOSTNAME, 254] + hostname;
    var long: TlvSet := map[DOMAIN_PREFIX := value];
    SkipAbsent(long, Other, 0, DOMAIN_PREFIX);
    SkipAbsent(long, Other, DOMAIN_PREFIX + 1, TYPES);
    assert TlvBytes(Tlv(DOMAIN_PREFIX, value)) == [DOMAIN_PREFIX, 0] + value;
    assert SignedTlvs(long, Other, DOMAIN_PREFIX) == [DOMAIN_PREFIX, 0] + value + SignedTlvs(long, Other, TYPES);
  }

  lemma ShortContent(hostname: ByteArray)
    requires |hostname| == 254
    ensures SignedTlvs(map[DOMAIN_PREFIX := [], TRI_HOSTNAME := hostname], Other, 0)
            == [DOMAIN_PREFIX, 0, TRI_HOSTNAME, 254] + hostname
  {
    var short: TlvSet := map[DOMAIN_PREFIX := [], TRI_HOSTNAME := hostname];
    SkipAbsent(short, Other, 0, DOMAIN_PREFIX);
    SkipAbsent(short, Other, DOMAIN_PREFIX + 1, TRI_HOSTNAME);
    SkipAbsent(short, Other, TRI_HOSTNAME + 1, TYPES);
    ShortTlvs(hostname);
    assert SignedTlvs(short, Other, TRI_HOSTNAME)
        == [TRI_HOSTNAME, 254] + hostname + SignedTlvs(short, Other, TYPES);
    assert SignedTlvs(short, Other, DOMAIN_PREFIX) == [DOMAIN_PREFIX, 0] + SignedTlvs(short, Other, TRI_HOSTNAME);
  }

  // ---------------------------------------------------------------------------
  // When the content can be read back
  // ---------------------------------------------------------------------------

  /** The bytes that the TLVs of type `n` or more take in the short form. */
  function Weight(tlvs: TlvSet, n: nat): nat
    requires n <= TYPES
    decreases TYPES - n
  {
    if n == TYPES then 0 else (if n in tlvs then 2 + |tlvs[n]| else 0) + Weight(tlvs, n + 1)
  }

  lemma {:induction false} WeightOfUpdate(tlvs: TlvSet, typ: Byte, value: ByteArray, n: nat)
    requires n <= TYPES
    ensures Weight(tlvs[typ := value], n) <= Weight(tlvs, n) + if typ >= n then 2 + |value| else 0
    decreases TYPES - n
  {
    if n == TYPES {
    } else {
      WeightOfUpdate(tlvs, typ, value, n + 1);
    }
  }

  lemma {:induction false} WeightOfPart(a: TlvSet, b: TlvSet, n: nat)
    requires n <= TYPES && forall t :: t in a && n <= t ==> t in b && a[t] == b[t]
    ensures Weight(a, n) <= Weight(b, n)
    decreases TYPES - n
  {
    if n == TYPES {
    } else {
      WeightOfPart(a, b, n + 1);
    }
  }

  /** A stream cannot yield TLVs that weigh more than it has bytes. */
  lemma {:induction false} ParsedWeight(rest: ByteArray, tlvs: TlvSet, n: nat)
    requires n <= TYPES && ParseTlvs(MeshCoP, rest, tlvs).Ok?
    ensures Weight(ParseTlvs(MeshCoP, rest, tlvs).value, n) <= Weight(tlvs, n) + |rest|
    decreases |rest|
  {
    hide ParseTlv, IsValid, Weight;
    if rest == [] {
    } else {
      var p := ParseTlv(rest).value;
      ParsedHeader(rest);
      WeightOfUpdate(tlvs, p.tlv.typ, p.tlv.value, n);
      ParsedWeight(rest[p.size..], Kept(MeshCoP, p.tlv, tlvs), n);
    }
  }

  lemma ParsedHeader(rest: ByteArray)
    requires ParseTlv(rest).Ok?
    ensures var p := ParseTlv(rest).value;
            p.size == |p.tlv.value| + if rest[1] == ESCAPE_LENGTH then 4 else 2
  {
  }

  /** From the Domain Prefix on, every TLV that is signed has the short form. */
  lemma {:induction false} SignedWeight(tlvs: TlvSet, n: nat)
    requires DOMAIN_PREFIX <= n <= TYPES
    ensures |SignedTlvs(tlvs, Other, n)| == Weight(Signed(tlvs, Other), n)
    decreases TYPES - n
  {
    if n == TYPES {
    } else {
      SignedWeight(tlvs, n + 1);
      assert n in Signed(tlvs, Other) ==> !IsExtendedTlv(n);
    }
  }

  /** The signed TLVs below the Domain Prefix are read back whatever comes behind them. */
  lemma {:induction false} ParseBelow(tlvs: TlvSet, n: nat, seen: TlvSet, below: TlvSet)
    requires AllValid(tlvs) && n <= DOMAIN_PREFIX
    requires below == map t | t in Signed(tlvs, Other) && t < DOMAIN_PREFIX :: tlvs[t]
    requires seen == map t | t in Signed(tlvs, Other) && t < n :: tlvs[t]
    ensures ParseTlvs(MeshCoP, SignedTlvs(tlvs, Other, n), seen)
            == ParseTlvs(MeshCoP, SignedTlvs(tlvs, Other, DOMAIN_PREFIX), below)
    decreases DOMAIN_PREFIX - n
  {
    hide IsValid, Encodable, TlvBytes, ShouldBeSerialized, ParseTlvs;
    if n == DOMAIN_PREFIX {
    } else if n in tlvs && ShouldBeSerialized(n, Other) {
      var t := Tlv(n, tlvs[n]);
      assert n in Signed(tlvs, Other);
      ValidIsEncodable(MeshCoP, t);
      ParseStream(MeshCoP, [t], SignedTlvs(tlvs, Other, n + 1), seen);
      assert Stream([t]) == TlvBytes(t) + Stream([]) == TlvBytes(t);
      assert LastWins(MeshCoP, [t], seen) == LastWins(MeshCoP, [], Kept(MeshCoP, t, seen));
      ParseBelow(tlvs, n + 1, seen[n := tlvs[n]], below);
    } else {
      ParseBelow(tlvs, n + 1, seen, below);
    }
  }

  /** What is left of the content from a long Domain Prefix on is too short to yield it all. */
  lemma LongPrefixNotParsed(tlvs: TlvSet, below: TlvSet)
    requires AllValid(tlvs) && DOMAIN_PREFIX in tlvs && |tlvs[DOMAIN_PREFIX]| >= ESCAPE_LENGTH
    requires forall t :: t in below ==> t < DOMAIN_PREFIX
    ensures ParseTlvs(MeshCoP, SignedTlvs(tlvs, Other, DOMAIN_PREFIX), below) != Ok(Signed(tlvs, Other))
  {
    hide ParseTlv, IsValid, Weight, SignedTlvs, ShouldBeSerialized;
    var (rest, signed) := (SignedTlvs(tlvs, Other, DOMAIN_PREFIX), Signed(tlvs, Other));
    SignedWeight(tlvs, DOMAIN_PREFIX);
    PrefixHead(tlvs);
    if ParseTlvs(MeshCoP, rest, below) == Ok(signed) {
      var p := ParseTlv(rest).value;
      var more := rest[p.size..];
      var seen := Kept(MeshCoP, p.tlv, below);
      ParsedHeader(rest);
      ParsedType(rest);
      ParseOnto(MeshCoP, more, seen);
      var own := ParseTlvs(MeshCoP, more, map[]).value;
      assert signed == seen + own;
      ParsedWeight(more, map[], DOMAIN_PREFIX);
      NoWeight(DOMAIN_PREFIX);
      if p.tlv.value != tlvs[DOMAIN_PREFIX] {
        WeightOfPart(signed, own, DOMAIN_PREFIX);
      } else {
        WeightOfPart(signed, own[DOMAIN_PREFIX := p.tlv.value], DOMAIN_PREFIX);
        WeightOfUpdate(own, DOMAIN_PREFIX, p.tlv.value, DOMAIN_PREFIX);
      }
      assert false;
    }
  }

  lemma ParsedType(rest: ByteArray)
    requires ParseTlv(rest).Ok?
    ensures ParseTlv(rest).value.tlv.typ == rest[0]
  {
  }

  lemma {:induction false} NoWeight(n: nat)
    requires n <= TYPES
    ensures Weight(map[], n) == 0
    decreases TYPES - n
  {
    if n == TYPES {
    } else {
      NoWeight(n + 1);
    }
  }

  /** The length byte of a long prefix tells another length, or announces the extended form. */
  lemma PrefixHead(tlvs: TlvSet)
    requires AllValid(tlvs) && DOMAIN_PREFIX in tlvs && |tlvs[DOMAIN_PREFIX]| >= ESCAPE_LENGTH
    ensures var (rest, value) := (SignedTlvs(tlvs, Other, DOMAIN_PREFIX), tlvs[DOMAIN_PREFIX]);
            && |rest| >= 2 && rest[0] == DOMAIN_PREFIX && DOMAIN_PREFIX in Signed(tlvs, Other)
            && (ParseTlv(rest).Ok? && rest[1] != ESCAPE_LENGTH ==> ParseTlv(rest).value.tlv.value != value)
  {
    hide SignedTlvs;
    var value := tlvs[DOMAIN_PREFIX];
    var rest := SignedTlvs(tlvs, Other, DOMAIN_PREFIX);
    assert rest == TlvBytes(Tlv(DOMAIN_PREFIX, value)) + SignedTlvs(tlvs, Other, DOMAIN_PREFIX + 1) by {
      SignedAt(tlvs, DOMAIN_PREFIX);
    }
    assert rest[1] == |value| % 256;
  }

  lemma SignedAt(tlvs: TlvSet, n: Byte)
    requires n in tlvs && ShouldBeSerialized(n, Other)
    ensures SignedTlvs(tlvs, Other, n) == TlvBytes(Tlv(n, tlvs[n])) + SignedTlvs(tlvs, Other, n + 1)
  {
  }

  /** The TLV part of the content reads back as the signed TLVs if and only if no long Domain Prefix is signed. */
  lemma ContentReadsBackIff(uri: ByteArray, tlvs: TlvSet)
    requires AllValid(tlvs)
    ensures ParseTlvs(MeshCoP, SignedTlvs(tlvs, KindOf(uri), 0), map[]) == Ok(Signed(tlvs, KindOf(uri)))
       <==> !SignsLongPrefix(uri, tlvs)
  {
    hide SignedTlvs, ParseTlvs, IsValid;
    if SignsLongPrefix(uri, tlvs) {
      var below: TlvSet := map t | t in Signed(tlvs, Other) && t < DOMAIN_PREFIX :: tlvs[t];
      assert KindOf(uri) == Other;
      ParseBelow(tlvs, 0, map[], below);
      LongPrefixNotParsed(tlvs, below);
    } else {
      SignedEncodable(uri, tlvs);
      ParseSigned(tlvs, KindOf(uri), 0, map[]);
    }
  }
}
