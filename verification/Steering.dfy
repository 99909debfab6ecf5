/**
 Joiners and steering data in src/app/commissioner_app.cpp: which joiners are enabled,
 and the Bloom filters in the Commissioner dataset that tell the network about them.

 The joiner id of a device is a hash of its EUI-64, here any function `idOf`. Whether the
 commissioner is active, and whether the network accepts a new dataset, are inputs.
 */
module Steering {
  import opened Bytes
  import opened Datasets
  import opened BloomFilter
  import Crc16

  const MAX_STEERING_DATA_LENGTH := 16

  const DEFAULT_JOINER_UDP_PORT: Word := 1000
  const DEFAULT_AE_UDP_PORT: Word := 1001
  const DEFAULT_NMKP_UDP_PORT: Word := 1002

  datatype JoinerType = MeshCoP | Ae | Nmkp

  /** `std::map<JoinerKey, JoinerInfo>`; EUI-64 zero stands for all joiners of the type. */
  datatype Key = Key(typ: JoinerType, id: ByteArray)
  type Joiners = map<Key, nat>

  type IdOf = nat -> ByteArray

  datatype App = App(dataset: CommissionerDataset, joiners: Joiners)

  // ---------------------------------------------------------------------------
  // Datasets
  // ---------------------------------------------------------------------------

  function SteeringBit(t: JoinerType): bv16 {
    match t
    case MeshCoP => STEERING_DATA_BIT
    case Ae => AE_STEERING_DATA_BIT
    case Nmkp => NMKP_STEERING_DATA_BIT
  }

  function SteeringData(d: CommissionerDataset, t: JoinerType): ByteArray {
    match t
    case MeshCoP => d.steeringData
    case Ae => d.aeSteeringData
    case Nmkp => d.nmkpSteeringData
  }

  /** Assign through `GetSteeringData(CommissionerDataset &, JoinerType)`, which also marks the field as present. */
  function WithSteeringData(d: CommissionerDataset, t: JoinerType, data: ByteArray): CommissionerDataset {
    var marked := d.(flags := With(d.flags, SteeringBit(t)));
    match t
    case MeshCoP => marked.(steeringData := data)
    case Ae => marked.(aeSteeringData := data)
    case Nmkp => marked.(nmkpSteeringData := data)
  }

  /** A copy without session id and locator, which are not the commissioner's to set. */
  function Draft(d: CommissionerDataset): CommissionerDataset {
    d.(flags := Without(Without(d.flags, SESSION_ID_BIT), BORDER_AGENT_LOCATOR_BIT))
  }

  function Kept(flags: bv16, src: bv16, bit: bv16): bv16 {
    if Has(src, bit) then With(flags, bit) else flags
  }

  function Replaced(flags: bv16, src: bv16, bit: bv16): bv16 {
    if Has(src, bit) then With(flags, bit) else Without(flags, bit)
  }

  /** `MergeDataset`: steering data and ports are dropped when the source does not have them. */
  function Merged(dst: CommissionerDataset, src: CommissionerDataset): CommissionerDataset {
    CommissionerDataset(
      if Has(src.flags, BORDER_AGENT_LOCATOR_BIT) then src.borderAgentLocator else dst.borderAgentLocator,
      if Has(src.flags, SESSION_ID_BIT) then src.sessionId else dst.sessionId,
      if Has(src.flags, STEERING_DATA_BIT) then src.steeringData else dst.steeringData,
      if Has(src.flags, AE_STEERING_DATA_BIT) then src.aeSteeringData else dst.aeSteeringData,
      if Has(src.flags, NMKP_STEERING_DATA_BIT) then src.nmkpSteeringData else dst.nmkpSteeringData,
      if Has(src.flags, JOINER_UDP_PORT_BIT) then src.joinerUdpPort else dst.joinerUdpPort,
      if Has(src.flags, AE_UDP_PORT_BIT) then src.aeUdpPort else dst.aeUdpPort,
      if Has(src.flags, NMKP_UDP_PORT_BIT) then src.nmkpUdpPort else dst.nmkpUdpPort,
      MergedFlags(dst.flags, src.flags))
  }

  function MergedFlags(dst: bv16, src: bv16): bv16 {
    var flags := Kept(dst, src, BORDER_AGENT_LOCATOR_BIT);
    var flags := Kept(flags, src, SESSION_ID_BIT);
    var flags := Replaced(flags, src, STEERING_DATA_BIT);
    var flags := Replaced(flags, src, AE_STEERING_DATA_BIT);
    var flags := Replaced(flags, src, NMKP_STEERING_DATA_BIT);
    var flags := Replaced(flags, src, JOINER_UDP_PORT_BIT);
    var flags := Replaced(flags, src, AE_UDP_PORT_BIT);
    Replaced(flags, src, NMKP_UDP_PORT_BIT)
  }

  function DefaultDataset(ccm: bool): CommissionerDataset {
    var d := NO_COMMISSIONER.(joinerUdpPort := DEFAULT_JOINER_UDP_PORT, flags := JOINER_UDP_PORT_BIT);
    if !ccm then d
    else d.(aeUdpPort := DEFAULT_AE_UDP_PORT, nmkpUdpPort := DEFAULT_NMKP_UDP_PORT,
            flags := JOINER_UDP_PORT_BIT | AE_UDP_PORT_BIT | NMKP_UDP_PORT_BIT)
  }

  /** `Commissioner::AddJoiner`: a filter of another length is started afresh. */
  function WithJoiner(data: ByteArray, id: ByteArray): ByteArray {
    Added(if |data| == MAX_STEERING_DATA_LENGTH then data else seq(MAX_STEERING_DATA_LENGTH, _ => 0), id)
  }

  // ---------------------------------------------------------------------------
  // Operations
  // ---------------------------------------------------------------------------

  /** What a caller brings to an operation: a valid credential, an active commissioner, an obliging network. */
  datatype Request = Request(pskdValid: bool, active: bool, accepted: bool)

  predicate Admissible(t: JoinerType, r: Request) {
    (t.MeshCoP? ==> r.pskdValid) && r.active
  }

  /** Set new steering data: it is merged only when the network accepts it. */
  function WithDataset(s: App, t: JoinerType, data: ByteArray): App {
    s.(dataset := Merged(s.dataset, WithSteeringData(Draft(s.dataset), t, data)))
  }

  function Enabled(s: App, t: JoinerType, eui64: nat, r: Request, idOf: IdOf): App {
    var key := Key(t, idOf(eui64));
    if !Admissible(t, r) || key in s.joiners || !r.accepted then s
    else
      var set1 := WithDataset(s, t, WithJoiner(SteeringData(s.dataset, t), key.id));
      set1.(joiners := s.joiners[key := eui64])
  }

  /** The entries among `keys` that are not the one of the given type and EUI-64. */
  function Others(keys: set<Key>, joiners: Joiners, t: JoinerType, eui64: nat): set<Key>
    requires keys <= joiners.Keys
  {
    set k | k in keys && !(k.typ == t && joiners[k] == eui64)
  }

  /** One byte of zeros to which one id is added `n` times. */
  function Repeated(n: nat, id: ByteArray): ByteArray {
    if n == 0 then [0x00] else WithJoiner(Repeated(n - 1, id), id)
  }

  /** For every other entry, of whatever type, the id of the joiner to be disabled is computed and added. */
  function Disabled(s: App, t: JoinerType, eui64: nat, r: Request, idOf: IdOf): App {
    var n := |Others(s.joiners.Keys, s.joiners, t, eui64)|;
    if !r.active || !r.accepted then s
    else
      var id := if n == 0 then [] else idOf(eui64);
      WithDataset(s, t, Repeated(n, idOf(eui64))).(joiners := s.joiners - {Key(t, id)})
  }

  function Erased(joiners: Joiners, t: JoinerType): Joiners {
    map k | k in joiners && k.typ != t :: joiners[k]
  }

  function AllEnabled(s: App, t: JoinerType, r: Request, idOf: IdOf): App {
    if !Admissible(t, r) || !r.accepted then s
    else WithDataset(s, t, [0xFF]).(joiners := Erased(s.joiners, t)[Key(t, idOf(0)) := 0])
  }

  function AllDisabled(s: App, t: JoinerType, r: Request): App {
    if !r.active || !r.accepted then s
    else WithDataset(s, t, [0x00]).(joiners := Erased(s.joiners, t))
  }

  function Stopped(ccm: bool): App {
    App(DefaultDataset(ccm), map[])
  }

  method SetIfPresent<T>(dst: T, src: T, flagsIn: bv16, from: bv16, bit: bv16) returns (value: T, flags: bv16)
    ensures value == (if Has(from, bit) then src else dst) && flags == Kept(flagsIn, from, bit)
  {
    value, flags := dst, flagsIn;
    if Has(from, bit) {
      value, flags := src, With(flags, bit);
    }
  }

  method SetOrDrop<T>(dst: T, src: T, flagsIn: bv16, from: bv16, bit: bv16) returns (value: T, flags: bv16)
    ensures value == (if Has(from, bit) then src else dst) && flags == Replaced(flagsIn, from, bit)
  {
    value, flags := dst, flagsIn;
    if Has(from, bit) {
      value, flags := src, With(flags, bit);
    } else {
      flags := Without(flags, bit);
    }
  }

  class CommissionerApp {
    const idOf: IdOf
    const ccm: bool
    var dataset: CommissionerDataset
    var joiners: Joiners

    ghost function Now(): App
      reads this
    {
      App(dataset, joiners)
    }

    constructor (idOf: IdOf, ccm: bool)
      ensures this.idOf == idOf && this.ccm == ccm && Now() == Stopped(ccm)
    {
      this.idOf, this.ccm := idOf, ccm;
      dataset, joiners := DefaultDataset(ccm), map[];
    }

    /** `MergeDataset(CommissionerDataset &, ...)`. */
    method Merge(src: CommissionerDataset)
      modifies this`dataset
      ensures dataset == Merged(old(dataset), src)
    {
      hide Has, Kept, Replaced;
      var d, from, flags := dataset, src.flags, dataset.flags;
      var locator, sessionId, steering, aeSteering, nmkpSteering, port, aePort, nmkpPort;
      locator, flags :=
        SetIfPresent(d.borderAgentLocator, src.borderAgentLocator, flags, from, BORDER_AGENT_LOCATOR_BIT);
      sessionId, flags := SetIfPresent(d.sessionId, src.sessionId, flags, from, SESSION_ID_BIT);
      steering, flags := SetOrDrop(d.steeringData, src.steeringData, flags, from, STEERING_DATA_BIT);
      aeSteering, flags := SetOrDrop(d.aeSteeringData, src.aeSteeringData, flags, from, AE_STEERING_DATA_BIT);
      nmkpSteering, flags := SetOrDrop(d.nmkpSteeringData, src.nmkpSteeringData, flags, from, NMKP_STEERING_DATA_BIT);
      port, flags := SetOrDrop(d.joinerUdpPort, src.joinerUdpPort, flags, from, JOINER_UDP_PORT_BIT);
      aePort, flags := SetOrDrop(d.aeUdpPort, src.aeUdpPort, flags, from, AE_UDP_PORT_BIT);
      nmkpPort, flags := SetOrDrop(d.nmkpUdpPort, src.nmkpUdpPort, flags, from, NMKP_UDP_PORT_BIT);
      dataset := CommissionerDataset(locator, sessionId, steering, aeSteering, nmkpSteering, port, aePort, nmkpPort, flags);
    }

    method AddJoiner(data: ByteArray, id: ByteArray) returns (out: ByteArray)
      ensures out == WithJoiner(data, id)
    {
      out := data;
      if |out| != MAX_STEERING_DATA_LENGTH {
        out := seq(MAX_STEERING_DATA_LENGTH, _ => 0);
      }
      out := ComputeBloomFilter(out, id);
    }

    method EnableJoiner(t: JoinerType, eui64: nat, r: Request)
      modifies this
      ensures Now() == Enabled(old(Now()), t, eui64, r, idOf)
    {
      hide Added, Merged, Draft;
      var id := idOf(eui64);
      var draft := Draft(dataset);
      if (t.MeshCoP? && !r.pskdValid) || !r.active {
        return;
      }
      if Key(t, id) in joiners {
        return;
      }
      assert SteeringData(draft, t) == SteeringData(dataset, t) by { DraftKeepsSteering(dataset, t); }
      var data := AddJoiner(SteeringData(draft, t), id);
      if !r.accepted {
        return;
      }
      Merge(WithSteeringData(draft, t, data));
      joiners := joiners[Key(t, id) := eui64];
    }

    method DisableJoiner(t: JoinerType, eui64: nat, r: Request)
      modifies this
      ensures Now() == Disabled(old(Now()), t, eui64, r, idOf)
    {
      hide WithJoiner, Merged, Draft;
      if !r.active {
        return;
      }
      var data, joinerId: ByteArray, toVisit, n: nat := [0x00], [], joiners.Keys, 0;
      while toVisit != {}
        invariant toVisit <= joiners.Keys && Now() == old(Now())
        invariant n + |Others(toVisit, joiners, t, eui64)| == |Others(joiners.Keys, joiners, t, eui64)|
        invariant data == Repeated(n, idOf(eui64)) && joinerId == if n == 0 then [] else idOf(eui64)
        decreases toVisit
      {
        var k :| k in toVisit;
        OneVisited(toVisit, joiners, t, eui64, k);
        toVisit := toVisit - {k};
        if k.typ == t && joiners[k] == eui64 {
          continue;
        }
        joinerId := idOf(eui64);
        data := AddJoiner(data, joinerId);
        n := n + 1;
      }
      if !r.accepted {
        return;
      }
      Merge(WithSteeringData(Draft(dataset), t, data));
      joiners := joiners - {Key(t, joinerId)};
    }

    /** Erase while iterating: the keys are visited one by one. */
    method EraseAllJoiners(t: JoinerType)
      modifies this`joiners
      ensures joiners == Erased(old(joiners), t)
    {
      var toVisit := joiners.Keys;
      while toVisit != {}
        invariant toVisit <= joiners.Keys <= old(joiners).Keys
        invariant forall k :: k in old(joiners) ==> (k in joiners <==> k in toVisit || k.typ != t)
        invariant forall k :: k in joiners ==> joiners[k] == old(joiners)[k]
        decreases toVisit
      {
        var k :| k in toVisit;
        toVisit := toVisit - {k};
        if k.typ == t {
          joiners := joiners - {k};
        }
      }
    }

    method EnableAllJoiners(t: JoinerType, r: Request)
      modifies this
      ensures Now() == AllEnabled(old(Now()), t, r, idOf)
    {
      hide Merged, Draft, Erased;
      if (t.MeshCoP? && !r.pskdValid) || !r.active || !r.accepted {
        return;
      }
      Merge(WithSteeringData(Draft(dataset), t, [0xFF]));
      EraseAllJoiners(t);
      joiners := joiners[Key(t, idOf(0)) := 0];
    }

    method DisableAllJoiners(t: JoinerType, r: Request)
      modifies this
      ensures Now() == AllDisabled(old(Now()), t, r)
    {
      hide Merged, Draft, Erased;
      if !r.active || !r.accepted {
        return;
      }
      Merge(WithSteeringData(Draft(dataset), t, [0x00]));
      EraseAllJoiners(t);
    }

    method Stop()
      modifies this
      ensures Now() == Stopped(ccm)
    {
      joiners := map[];
      dataset := DefaultDataset(ccm);
    }
  }

  lemma OneVisited(keys: set<Key>, joiners: Joiners, t: JoinerType, eui64: nat, k: Key)
    requires keys <= joiners.Keys && k in keys
    ensures |Others(keys, joiners, t, eui64)|
            == |Others(keys - {k}, joiners, t, eui64)| + if k.typ == t && joiners[k] == eui64 then 0 else 1
  {
    var (all, rest) := (Others(keys, joiners, t, eui64), Others(keys - {k}, joiners, t, eui64));
    assert all == if k.typ == t && joiners[k] == eui64 then rest else rest + {k};
  }

  lemma DraftKeepsSteering(d: CommissionerDataset, t: JoinerType)
    ensures SteeringData(Draft(d), t) == SteeringData(d, t)
  {
  }

  // ---------------------------------------------------------------------------
  // Merging back a draft
  // ---------------------------------------------------------------------------

  lemma WithSets(flags: bv16, bit: bv16)
    requires bit != 0
    ensures Has(With(flags, bit), bit)
  {
    assert (flags | bit) & bit == bit;
  }

  lemma WithoutClears(flags: bv16, bit: bv16)
    ensures !Has(Without(flags, bit), bit)
  {
  }

  lemma WithElsewhere(flags: bv16, bit: bv16, other: bv16)
    requires Known(bit, other) == 0
    ensures Known(With(flags, bit), other) == Known(flags, other)
  {
  }

  lemma WithoutElsewhere(flags: bv16, bit: bv16, other: bv16)
    requires Known(bit, other) == 0
    ensures Known(Without(flags, bit), other) == Known(flags, other)
  {
  }

  /** Keeping or replacing one flag says nothing about another. */
  lemma OtherFlag(flags: bv16, src: bv16, bit: bv16, other: bv16)
    requires Known(bit, other) == 0
    ensures Has(Kept(flags, src, bit), other) == Has(flags, other)
    ensures Has(Replaced(flags, src, bit), other) == Has(flags, other)
    ensures Has(With(flags, bit), other) == Has(flags, other) && Has(Without(flags, bit), other) == Has(flags, other)
  {
    hide Known, With, Without;
    WithElsewhere(flags, bit, other);
    WithoutElsewhere(flags, bit, other);
  }

  lemma OwnFlag(flags: bv16, src: bv16, bit: bv16)
    requires bit != 0
    ensures Has(Replaced(flags, src, bit), bit) == Has(src, bit) && Has(With(flags, bit), bit)
  {
    hide Has, With, Without;
    WithSets(flags, bit);
    WithoutClears(flags, bit);
  }

  /** The steering bits overlap neither with each other nor with any other flag. */
  lemma SteeringBits(t: JoinerType, u: JoinerType)
    ensures SteeringBit(t) != 0 && (t != u ==> Known(SteeringBit(t), SteeringBit(u)) == 0)
    ensures Known(SESSION_ID_BIT, SteeringBit(t)) == 0 && Known(BORDER_AGENT_LOCATOR_BIT, SteeringBit(t)) == 0
    ensures Known(JOINER_UDP_PORT_BIT, SteeringBit(t)) == 0 && Known(AE_UDP_PORT_BIT, SteeringBit(t)) == 0
    ensures Known(NMKP_UDP_PORT_BIT, SteeringBit(t)) == 0
  {
  }

  /** In the merged flags, a steering bit is the source's. */
  lemma MergedSteeringBit(dst: bv16, src: bv16, t: JoinerType)
    ensures Has(MergedFlags(dst, src), SteeringBit(t)) <==> Has(src, SteeringBit(t))
  {
    hide Has, Known, Kept, Replaced, SteeringBit;
    var bit := SteeringBit(t);
    SteeringBits(t, t);
    SteeringBitIs();
    var f0 := Kept(Kept(dst, src, BORDER_AGENT_LOCATOR_BIT), src, SESSION_ID_BIT);
    var f1 := Replaced(f0, src, STEERING_DATA_BIT);
    var f2 := Replaced(f1, src, AE_STEERING_DATA_BIT);
    var f3 := Replaced(f2, src, NMKP_STEERING_DATA_BIT);
    var f4 := Replaced(f3, src, JOINER_UDP_PORT_BIT);
    var f5 := Replaced(f4, src, AE_UDP_PORT_BIT);
    match t {
      case MeshCoP =>
        OwnFlag(f0, src, STEERING_DATA_BIT);
        ApartFrom(Ae, MeshCoP); OtherFlag(f1, src, AE_STEERING_DATA_BIT, bit);
        ApartFrom(Nmkp, MeshCoP); OtherFlag(f2, src, NMKP_STEERING_DATA_BIT, bit);
      case Ae =>
        OwnFlag(f1, src, AE_STEERING_DATA_BIT);
        ApartFrom(Nmkp, Ae); OtherFlag(f2, src, NMKP_STEERING_DATA_BIT, bit);
      case Nmkp =>
        OwnFlag(f2, src, NMKP_STEERING_DATA_BIT);
    }
    OtherFlag(f3, src, JOINER_UDP_PORT_BIT, bit);
    OtherFlag(f4, src, AE_UDP_PORT_BIT, bit);
    OtherFlag(f5, src, NMKP_UDP_PORT_BIT, bit);
  }

  lemma SteeringBitIs()
    ensures SteeringBit(MeshCoP) == STEERING_DATA_BIT && SteeringBit(Ae) == AE_STEERING_DATA_BIT
    ensures SteeringBit(Nmkp) == NMKP_STEERING_DATA_BIT
  {
  }

  lemma ApartFrom(t: JoinerType, u: JoinerType)
    requires t != u
    ensures Known(SteeringBit(t), SteeringBit(u)) == 0
  {
    SteeringBits(t, u);
  }

  /** A draft differs from the dataset in the two bits it drops, and in the steering data that is set. */
  lemma DraftBits(d: CommissionerDataset, t: JoinerType, u: JoinerType, data: ByteArray)
    ensures Has(WithSteeringData(Draft(d), t, data).flags, SteeringBit(u)) <==> t == u || Has(d.flags, SteeringBit(u))
  {
    hide Has, Known, With, Without, SteeringBit;
    SteeringBits(u, t);
    SteeringBits(t, u);
    var flags := Without(d.flags, SESSION_ID_BIT);
    OtherFlag(d.flags, 0, SESSION_ID_BIT, SteeringBit(u));
    OtherFlag(flags, 0, BORDER_AGENT_LOCATOR_BIT, SteeringBit(u));
    var draft := Without(flags, BORDER_AGENT_LOCATOR_BIT);
    OwnFlag(draft, 0, SteeringBit(t));
    if t != u {
      OtherFlag(draft, 0, SteeringBit(t), SteeringBit(u));
    }
  }

  /** Setting steering data changes that of one type only. */
  lemma WithDatasetSets(s: App, t: JoinerType, data: ByteArray, u: JoinerType)
    ensures var d := WithDataset(s, t, data).dataset;
            && SteeringData(d, u) == (if t == u then data else SteeringData(s.dataset, u))
            && (Has(d.flags, SteeringBit(u)) <==> t == u || Has(s.dataset.flags, SteeringBit(u)))
  {
    hide Has, MergedFlags, With, Without, SteeringBit;
    var src := WithSteeringData(Draft(s.dataset), t, data);
    SteeringBitIs();
    DraftBits(s.dataset, t, u, data);
    MergedSteeringBit(s.dataset.flags, src.flags, u);
  }

  // ---------------------------------------------------------------------------
  // No false negatives
  // ---------------------------------------------------------------------------

  /** The steering data of a type is announced and answers yes for the id. */
  predicate Announced(d: CommissionerDataset, k: Key) {
    && Has(d.flags, SteeringBit(k.typ))
    && |SteeringData(d, k.typ)| == MAX_STEERING_DATA_LENGTH && Contains(SteeringData(d, k.typ), k.id)
  }

  /** Every enabled joiner but the wildcard can find itself in the steering data of its type. */
  ghost predicate NoFalseNegatives(s: App) {
    forall k :: k in s.joiners && s.joiners[k] != 0 ==> Announced(s.dataset, k)
  }

  lemma StillAnnounced(s: App, t: JoinerType, data: ByteArray, k: Key)
    requires Announced(s.dataset, k) && k.typ != t
    ensures Announced(WithDataset(s, t, data).dataset, k)
  {
    hide Contains, Has, WithDataset, SteeringBit;
    WithDatasetSets(s, t, data, k.typ);
  }

  lemma JoinerAnnounced(s: App, t: JoinerType, id: ByteArray, k: Key)
    requires k == Key(t, id) || (Announced(s.dataset, k) && k.typ == t)
    ensures Announced(WithDataset(s, t, WithJoiner(SteeringData(s.dataset, t), id)).dataset, k)
  {
    hide Contains, Has, WithDataset, Added, SteeringBit;
    var before := SteeringData(s.dataset, t);
    var data := if |before| == MAX_STEERING_DATA_LENGTH then before else seq(MAX_STEERING_DATA_LENGTH, _ => 0);
    AddedLength(data, id);
    AddedContains(data, id, k.id);
    WithDatasetSets(s, t, WithJoiner(before, id), t);
  }

  lemma AddedLength(filter: ByteArray, id: ByteArray)
    requires filter != []
    ensures |Added(filter, id)| == |filter|
  {
  }

  datatype Event =
    | Enable(t: JoinerType, eui64: nat, r: Request)
    | Disable(t: JoinerType, eui64: nat, r: Request)
    | EnableAll(t: JoinerType, r: Request)
    | DisableAll(t: JoinerType, r: Request)
    | Stop(ccm: bool)

  function Step(s: App, e: Event, idOf: IdOf): App {
    match e
    case Enable(t, eui64, r) => Enabled(s, t, eui64, r, idOf)
    case Disable(t, eui64, r) => Disabled(s, t, eui64, r, idOf)
    case EnableAll(t, r) => AllEnabled(s, t, r, idOf)
    case DisableAll(t, r) => AllDisabled(s, t, r)
    case Stop(ccm) => Stopped(ccm)
  }

  function Run(ccm: bool, events: seq<Event>, idOf: IdOf): App {
    if events == [] then Stopped(ccm) else Step(Run(ccm, events[..|events| - 1], idOf), events[|events| - 1], idOf)
  }

  // ---------------------------------------------------------------------------
  // Disabling one joiner
  // ---------------------------------------------------------------------------

  /** Entries are filed under the id of their EUI-64, which is never empty. */
  ghost predicate KeysAreIds(s: App, idOf: IdOf) {
    forall k :: k in s.joiners ==> k.id == idOf(s.joiners[k]) != []
  }

  /** Some entry, of whatever type, is not the one of the given type and EUI-64. */
  predicate HasOthers(s: App, t: JoinerType, eui64: nat) {
    exists k :: k in s.joiners && !(k.typ == t && s.joiners[k] == eui64)
  }

  lemma OthersCounted(s: App, t: JoinerType, eui64: nat)
    ensures |Others(s.joiners.Keys, s.joiners, t, eui64)| > 0 <==> HasOthers(s, t, eui64)
  {
    var others := Others(s.joiners.Keys, s.joiners, t, eui64);
    if HasOthers(s, t, eui64) {
      var k :| k in s.joiners && !(k.typ == t && s.joiners[k] == eui64);
      assert k in others;
    } else {
      assert others == {};
    }
  }

  /** A joiner is removed if and only if the request goes through and some other joiner is enabled; nothing else is. */
  lemma DisableRemovesIff(s: App, t: JoinerType, eui64: nat, r: Request, idOf: IdOf)
    requires KeysAreIds(s, idOf) && idOf(eui64) != []
    ensures Disabled(s, t, eui64, r, idOf).joiners
            == if r.active && r.accepted && HasOthers(s, t, eui64) then s.joiners - {Key(t, idOf(eui64))} else s.joiners
  {
    hide WithDataset, Others, Repeated, HasOthers;
    OthersCounted(s, t, eui64);
    assert Key(t, []) !in s.joiners;
    assert s.joiners - {Key(t, [])} == s.joiners;
  }

  /** Every bit that `other` selects is selected by `id` too. */
  ghost predicate Covers(id: ByteArray, other: ByteArray) {
    forall bit: nat :: Selects(other, MAX_STEERING_DATA_LENGTH, bit) ==> Selects(id, MAX_STEERING_DATA_LENGTH, bit)
  }

  /** However often an id is added, the filter holds its two bits and no other. */
  lemma {:induction false} RepeatedBits(n: nat, id: ByteArray, bit: nat)
    requires n > 0
    ensures |Repeated(n, id)| == MAX_STEERING_DATA_LENGTH
    ensures BitSet(Repeated(n, id), bit) <==> Selects(id, MAX_STEERING_DATA_LENGTH, bit)
  {
    hide BitSet, Added, Selects;
    if n == 1 {
      AddedBits(seq(MAX_STEERING_DATA_LENGTH, _ => 0), id, bit);
      BytesOfZero(MAX_STEERING_DATA_LENGTH, bit);
    } else {
      RepeatedBits(n - 1, id, bit);
      AddedBits(Repeated(n - 1, id), id, bit);
    }
  }

  lemma RepeatedContains(n: nat, id: ByteArray, other: ByteArray)
    requires n > 0
    ensures |Repeated(n, id)| == MAX_STEERING_DATA_LENGTH
    ensures Contains(Repeated(n, id), other) <==> Covers(id, other)
  {
    hide BitSet, Repeated, Selected;
    RepeatedBits(n, id, Selected(Crc16.CCITT, other, MAX_STEERING_DATA_LENGTH));
    RepeatedBits(n, id, Selected(Crc16.ANSI, other, MAX_STEERING_DATA_LENGTH));
    assert Selects(other, MAX_STEERING_DATA_LENGTH, Selected(Crc16.CCITT, other, MAX_STEERING_DATA_LENGTH));
    assert Selects(other, MAX_STEERING_DATA_LENGTH, Selected(Crc16.ANSI, other, MAX_STEERING_DATA_LENGTH));
  }

  /** No joiner of the type loses its bits: the one disabled has company, and its id covers those that stay. */
  ghost predicate Harmless(s: App, t: JoinerType, eui64: nat, idOf: IdOf) {
    forall k :: k in s.joiners && k.typ == t && s.joiners[k] != 0 ==>
      if k.id == idOf(eui64) then HasOthers(s, t, eui64) else Covers(idOf(eui64), k.id)
  }

  /** What a request that goes through announces afterwards. */
  lemma DisabledAnnounces(s: App, t: JoinerType, eui64: nat, r: Request, idOf: IdOf, k: Key)
    requires r.active && r.accepted && (k.typ != t ==> Announced(s.dataset, k))
    ensures Announced(Disabled(s, t, eui64, r, idOf).dataset, k) <==>
            k.typ != t || (HasOthers(s, t, eui64) && Covers(idOf(eui64), k.id))
  {
    hide Contains, Has, WithDataset, SteeringBit, Others, HasOthers, Covers;
    var n := |Others(s.joiners.Keys, s.joiners, t, eui64)|;
    OthersCounted(s, t, eui64);
    WithDatasetSets(s, t, Repeated(n, idOf(eui64)), k.typ);
    if n > 0 {
      RepeatedContains(n, idOf(eui64), k.id);
    }
  }

  /** Disabling a joiner keeps every joiner that stays enabled announced if and only if it is harmless. */
  lemma DisableAnnouncesIff(s: App, t: JoinerType, eui64: nat, r: Request, idOf: IdOf)
    requires NoFalseNegatives(s) && KeysAreIds(s, idOf) && idOf(eui64) != []
    ensures NoFalseNegatives(Disabled(s, t, eui64, r, idOf)) <==>
            (r.active && r.accepted ==> Harmless(s, t, eui64, idOf))
  {
    hide Announced, Covers;
    if r.active && r.accepted {
      var d := Disabled(s, t, eui64, r, idOf);
      DisableRemovesIff(s, t, eui64, r, idOf);
      forall k | k in s.joiners && s.joiners[k] != 0
        ensures Announced(d.dataset, k) <==> k.typ != t || (HasOthers(s, t, eui64) && Covers(idOf(eui64), k.id))
        ensures k.typ == t && k.id != idOf(eui64) ==> HasOthers(s, t, eui64)
      {
        hide Disabled;
        DisabledAnnounces(s, t, eui64, r, idOf, k);
      }
    }
  }

  /** The only joiner is not removed when it is disabled, but is no longer announced. */
  lemma OnlyJoinerStays(s: App, t: JoinerType, eui64: nat, r: Request, idOf: IdOf)
    requires r.active && r.accepted && idOf(eui64) != [] && s.joiners == map[Key(t, idOf(eui64)) := eui64]
    ensures var d := Disabled(s, t, eui64, r, idOf);
            d.joiners == s.joiners && !Announced(d.dataset, Key(t, idOf(eui64)))
  {
    hide Disabled, Announced;
    DisableRemovesIff(s, t, eui64, r, idOf);
    DisabledAnnounces(s, t, eui64, r, idOf, Key(t, idOf(eui64)));
  }

  // ---------------------------------------------------------------------------
  // Runs
  // ---------------------------------------------------------------------------

  lemma OtherStepsAnnounce(s: App, e: Event, idOf: IdOf)
    requires NoFalseNegatives(s) && !e.Disable?
    ensures NoFalseNegatives(Step(s, e, idOf))
  {
    hide Announced, WithDataset, WithJoiner;
    var r := Step(s, e, idOf);
    forall k | k in r.joiners && r.joiners[k] != 0 ensures Announced(r.dataset, k) {
      match e
      case Enable(t, eui64, _) =>
        if r != s {
          if k.typ == t {
            JoinerAnnounced(s, t, idOf(eui64), k);
          } else {
            StillAnnounced(s, t, WithJoiner(SteeringData(s.dataset, t), idOf(eui64)), k);
          }
        }
      case EnableAll(t, _) => if r != s { StillAnnounced(s, t, [0xFF], k); }
      case DisableAll(t, _) => if r != s { StillAnnounced(s, t, [0x00], k); }
      case Stop(ccm) =>
    }
  }

  /** The one event that can leave an enabled joiner without its bits is a disabling that is not harmless. */
  ghost predicate Safe(s: App, e: Event, idOf: IdOf) {
    e.Disable? && e.r.active && e.r.accepted ==> Harmless(s, e.t, e.eui64, idOf)
  }

  ghost predicate IdsNotEmpty(idOf: IdOf) {
    forall eui64 :: idOf(eui64) != []
  }

  lemma StepAnnounces(s: App, e: Event, idOf: IdOf)
    requires NoFalseNegatives(s)
    requires e.Disable? ==> KeysAreIds(s, idOf) && IdsNotEmpty(idOf)
    ensures NoFalseNegatives(Step(s, e, idOf)) <==> Safe(s, e, idOf)
  {
    hide Announced, NoFalseNegatives, Harmless, KeysAreIds, Disabled, Enabled, AllEnabled, AllDisabled;
    if e.Disable? {
      assert idOf(e.eui64) != [];
      DisableAnnouncesIff(s, e.t, e.eui64, e.r, idOf);
    } else {
      OtherStepsAnnounce(s, e, idOf);
    }
  }

  lemma {:induction false} RunKeysAreIds(ccm: bool, events: seq<Event>, idOf: IdOf)
    requires IdsNotEmpty(idOf)
    ensures KeysAreIds(Run(ccm, events, idOf), idOf)
  {
    hide WithDataset;
    if events == [] {
    } else {
      RunKeysAreIds(ccm, events[..|events| - 1], idOf);
    }
  }

  /** Every event of a run is safe where it arrives. */
  ghost predicate SafeRun(ccm: bool, events: seq<Event>, idOf: IdOf) {
    events != [] ==>
      var n := |events| - 1;
      && SafeRun(ccm, events[..n], idOf) && Safe(Run(ccm, events[..n], idOf), events[n], idOf)
      && (events[n].Disable? ==> IdsNotEmpty(idOf))
  }

  /** After every run, with requests accepted or refused, in which no joiner is disabled but harmlessly. */
  lemma {:induction false} RunAnnounces(ccm: bool, events: seq<Event>, idOf: IdOf)
    requires SafeRun(ccm, events, idOf)
    ensures NoFalseNegatives(Run(ccm, events, idOf))
  {
    hide Step, Announced, Safe, KeysAreIds;
    if events == [] {
    } else {
      var (before, e) := (events[..|events| - 1], events[|events| - 1]);
      RunAnnounces(ccm, before, idOf);
      if e.Disable? {
        RunKeysAreIds(ccm, before, idOf);
      }
      StepAnnounces(Run(ccm, before, idOf), e, idOf);
    }
  }

  /** A run that disables no single joiner is safe. */
  lemma {:induction false} SafeWithoutDisabling(ccm: bool, events: seq<Event>, idOf: IdOf)
    requires forall e :: e in events ==> !e.Disable?
    ensures SafeRun(ccm, events, idOf)
  {
    hide Harmless, Step;
    if events == [] {
    } else {
      var (before, e) := (events[..|events| - 1], events[|events| - 1]);
      assert e in events && forall x :: x in before ==> x in events;
      SafeWithoutDisabling(ccm, before, idOf);
    }
  }

  // ---------------------------------------------------------------------------
  // The wildcard
  // ---------------------------------------------------------------------------

  /** The steering data of a type answers yes for every id. */
  ghost predicate AnnouncesAll(d: CommissionerDataset, t: JoinerType) {
    Has(d.flags, SteeringBit(t)) && AllSet(SteeringData(d, t))
  }

  /** A request for one joiner that goes through. */
  predicate Succeeds(s: App, e: Event, t: JoinerType, idOf: IdOf) {
    e.Enable? && e.t == t && Admissible(t, e.r) && Key(t, idOf(e.eui64)) !in s.joiners && e.r.accepted
  }

  /** Events that leave the wildcard of a type enabled. */
  predicate KeepsWildcard(e: Event, t: JoinerType) {
    !e.Stop? && (e.EnableAll? || e.DisableAll? || e.Disable? ==> e.t != t)
  }

  function RunFrom(s: App, events: seq<Event>, idOf: IdOf): App {
    if events == [] then s else Step(RunFrom(s, events[..|events| - 1], idOf), events[|events| - 1], idOf)
  }

  /** The ids of the joiners of a type that were enabled one by one. */
  function EnabledSince(s: App, events: seq<Event>, t: JoinerType, idOf: IdOf): seq<ByteArray> {
    if events == [] then []
    else
      var (before, e) := (events[..|events| - 1], events[|events| - 1]);
      EnabledSince(s, before, t, idOf)
      + if Succeeds(RunFrom(s, before, idOf), e, t, idOf) then [idOf(e.eui64)] else []
  }

  /** One byte of ones, and then a fresh filter of the ids enabled since. */
  function FilterOf(since: seq<ByteArray>): ByteArray {
    if since == [] then [0xFF] else WithJoiner(FilterOf(since[..|since| - 1]), since[|since| - 1])
  }

  lemma StepSteering(s: App, e: Event, t: JoinerType, idOf: IdOf)
    requires KeepsWildcard(e, t) && Has(s.dataset.flags, SteeringBit(t))
    ensures var d := Step(s, e, idOf).dataset;
            && Has(d.flags, SteeringBit(t))
            && SteeringData(d, t) == if Succeeds(s, e, t, idOf) then WithJoiner(SteeringData(s.dataset, t), idOf(e.eui64))
                                     else SteeringData(s.dataset, t)
  {
    hide Has, WithDataset, WithJoiner, SteeringBit;
    match e
    case Enable(u, eui64, _) => WithDatasetSets(s, u, WithJoiner(SteeringData(s.dataset, u), idOf(eui64)), t);
    case Disable(u, eui64, _) =>
      WithDatasetSets(s, u, Repeated(|Others(s.joiners.Keys, s.joiners, u, eui64)|, idOf(eui64)), t);
    case EnableAll(u, _) => WithDatasetSets(s, u, [0xFF], t);
    case DisableAll(u, _) => WithDatasetSets(s, u, [0x00], t);
    case Stop(_) =>
  }

  lemma {:induction false} RunSteering(s: App, events: seq<Event>, t: JoinerType, idOf: IdOf)
    requires Has(s.dataset.flags, SteeringBit(t)) && SteeringData(s.dataset, t) == [0xFF]
    requires forall e :: e in events ==> KeepsWildcard(e, t)
    ensures var d := RunFrom(s, events, idOf).dataset;
            Has(d.flags, SteeringBit(t)) && SteeringData(d, t) == FilterOf(EnabledSince(s, events, t, idOf))
  {
    hide Has, Step, WithJoiner, KeepsWildcard, Succeeds, SteeringBit;
    if events == [] {
    } else {
      var (before, e) := (events[..|events| - 1], events[|events| - 1]);
      assert e in events && forall x :: x in before ==> x in events;
      RunSteering(s, before, t, idOf);
      StepSteering(RunFrom(s, before, idOf), e, t, idOf);
      var since := EnabledSince(s, before, t, idOf);
      assert since + [] == since;
      assert (since + [idOf(if e.Enable? then e.eui64 else 0)])[..|since|] == since;
      EnableSucceeds(RunFrom(s, before, idOf), e, t, idOf);
    }
  }

  lemma EnableSucceeds(s: App, e: Event, t: JoinerType, idOf: IdOf)
    ensures Succeeds(s, e, t, idOf) ==> e.Enable?
  {
  }

  predicate SelectedBy(ids: seq<ByteArray>, bit: nat) {
    exists i :: 0 <= i < |ids| && Selects(ids[i], MAX_STEERING_DATA_LENGTH, bit)
  }

  lemma {:induction false} FilterBits(since: seq<ByteArray>, bit: nat)
    requires since != []
    ensures |FilterOf(since)| == MAX_STEERING_DATA_LENGTH
    ensures BitSet(FilterOf(since), bit) <==> SelectedBy(since, bit)
  {
    hide BitSet, Added, Selects;
    var last := |since| - 1;
    var before, id := since[..last], since[last];
    var zeros := seq(MAX_STEERING_DATA_LENGTH, _ => 0);
    if before == [] {
      AddedBits(zeros, id, bit);
      BytesOfZero(MAX_STEERING_DATA_LENGTH, bit);
      assert SelectedBy(since, bit) <==> Selects(since[0], MAX_STEERING_DATA_LENGTH, bit);
    } else {
      FilterBits(before, bit);
      AddedBits(FilterOf(before), id, bit);
      SelectedBySplit(since, bit);
    }
  }

  lemma SelectedBySplit(ids: seq<ByteArray>, bit: nat)
    requires ids != []
    ensures SelectedBy(ids, bit) <==>
            SelectedBy(ids[..|ids| - 1], bit) || Selects(ids[|ids| - 1], MAX_STEERING_DATA_LENGTH, bit)
  {
    hide Selects;
    var before := ids[..|ids| - 1];
    if SelectedBy(ids, bit) {
      var i :| 0 <= i < |ids| && Selects(ids[i], MAX_STEERING_DATA_LENGTH, bit);
      assert i < |before| ==> before[i] == ids[i];
    }
    if SelectedBy(before, bit) {
      var i :| 0 <= i < |before| && Selects(before[i], MAX_STEERING_DATA_LENGTH, bit);
      assert ids[i] == before[i];
    }
  }

  /**
   After all joiners of a type were enabled, and as long as they are, the steering data announces
   every device if and only if no single joiner was enabled since, or those that were happen to
   select all 128 bits between them.
   */
  lemma WildcardAnnouncedIff(s: App, events: seq<Event>, t: JoinerType, idOf: IdOf)
    requires Has(s.dataset.flags, SteeringBit(t)) && SteeringData(s.dataset, t) == [0xFF]
    requires forall e :: e in events ==> KeepsWildcard(e, t)
    ensures var since := EnabledSince(s, events, t, idOf);
            AnnouncesAll(RunFrom(s, events, idOf).dataset, t) <==>
            since == [] || forall bit: nat :: bit < 128 ==> SelectedBy(since, bit)
  {
    hide Has, BitSet, SelectedBy, KeepsWildcard, RunFrom, EnabledSince, FilterOf, SteeringBit;
    var since := EnabledSince(s, events, t, idOf);
    RunSteering(s, events, t, idOf);
    if since == [] {
      assert FilterOf(since) == [0xFF] by { NoneSince(); }
      ByteOfOnes();
    } else {
      FilterBits(since, 0);
      forall bit: nat ensures BitSet(FilterOf(since), bit) <==> SelectedBy(since, bit) {
        FilterBits(since, bit);
      }
    }
  }

  lemma NoneSince()
    ensures FilterOf([]) == [0xFF]
  {
  }

  /** Enabling all joiners brings about exactly the state that `WildcardAnnouncedIff` starts from. */
  lemma EnableAllAnnouncesAll(s: App, t: JoinerType, r: Request, idOf: IdOf)
    requires Admissible(t, r) && r.accepted
    ensures var a := AllEnabled(s, t, r, idOf);
            && Has(a.dataset.flags, SteeringBit(t)) && SteeringData(a.dataset, t) == [0xFF]
            && AnnouncesAll(a.dataset, t) && Key(t, idOf(0)) in a.joiners
  {
    hide Has, WithDataset, SteeringBit;
    WithDatasetSets(s, t, [0xFF], t);
    ByteOfOnes();
  }

  /** One joiner enabled after all of them: the wildcard stays enabled, and at most two bits are announced. */
  lemma OneJoinerHidesTheWildcard(s: App, t: JoinerType, eui64: nat, r: Request, idOf: IdOf)
    requires Admissible(t, r) && r.accepted && idOf(eui64) != idOf(0)
    ensures var a := Enabled(AllEnabled(s, t, r, idOf), t, eui64, r, idOf);
            && Key(t, idOf(0)) in a.joiners && a.joiners[Key(t, idOf(0))] == 0
            && !AnnouncesAll(a.dataset, t)
  {
    hide Has, WithDataset, SteeringBit, Added, BitSet, Selects;
    var all := AllEnabled(s, t, r, idOf);
    var id := idOf(eui64);
    EnableAllAnnouncesAll(s, t, r, idOf);
    WithDatasetSets(all, t, WithJoiner([0xFF], id), t);
    var zeros := seq(MAX_STEERING_DATA_LENGTH, _ => 0);
    UnselectedBit(id);
    var bit :| bit < 3 && !Selects(id, MAX_STEERING_DATA_LENGTH, bit);
    AddedBits(zeros, id, bit);
    BytesOfZero(MAX_STEERING_DATA_LENGTH, bit);
  }

  lemma UnselectedBit(id: ByteArray)
    ensures exists bit: nat :: bit < 3 && !Selects(id, MAX_STEERING_DATA_LENGTH, bit)
  {
    hide Selected;
    var (a, b) := (Selected(Crc16.CCITT, id, MAX_STEERING_DATA_LENGTH), Selected(Crc16.ANSI, id, MAX_STEERING_DATA_LENGTH));
    var bit := if a != 0 && b != 0 then 0 else if a != 1 && b != 1 then 1 else 2;
    assert !Selects(id, MAX_STEERING_DATA_LENGTH, bit);
  }
}
