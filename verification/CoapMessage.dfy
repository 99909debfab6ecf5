/**
 CoAP messages of src/library/coap.cpp and src/library/coap.hpp: header, option map
 and payload, and the whole-message serialiser and parser.

 An option map is a `std::map`, so it is walked in ascending order of option number.
 */
module CoapMessage {
  import opened Outcomes
  import opened Bytes
  import opened CoapOption
  import opened UriPath

  const VERSION_1 := 1
  const MAX_TOKEN_LENGTH := 8

  type Bits2 = b: int | 0 <= b < 4
  type Bits4 = b: int | 0 <= b < 16

  /** `token` holds the meaningful part of the eight-byte token array. */
  datatype Header = Header(version: Bits2, typ: Bits2, tokenLength: Bits4, code: Byte, messageId: Word, token: ByteArray) {

    predicate IsValid() {
      version == VERSION_1 && tokenLength <= MAX_TOKEN_LENGTH
    }

    predicate TokenFits() {
      |token| == if tokenLength <= MAX_TOKEN_LENGTH then tokenLength else MAX_TOKEN_LENGTH
    }
  }

  type Options = map<Word, ByteArray>

  datatype Message = Message(header: Header, options: Options, payload: ByteArray)

  const NUMBERS := 0x1_0000

  // ---------------------------------------------------------------------------
  // Serialising
  // ---------------------------------------------------------------------------

  /** `Message::Serialize(const Header &, ByteArray &)`. */
  function HeaderBytes(h: Header): Outcome<ByteArray>
    requires h.TokenFits()
  {
    if !h.IsValid() then Err(InvalidArgs)
    else Ok([64 * h.version + 16 * h.typ + h.tokenLength, h.code, h.messageId / 256, h.messageId % 256] + h.token)
  }

  /** The Uri-Path options of a path: one per segment, all with number 11. */
  function SegmentBytes(segs: seq<ByteArray>, last: Word): Outcome<ByteArray>
    decreases |segs|
  {
    if segs == [] then Ok([])
    else
      var first :- OptionOutcome(URI_PATH, segs[0], last);
      var rest :- SegmentBytes(segs[1..], URI_PATH);
      Ok(first + rest)
  }

  function EntryBytes(number: Word, value: ByteArray, last: Word): Outcome<ByteArray> {
    if number == URI_PATH then SegmentBytes(Split(value), last) else OptionOutcome(number, value, last)
  }

  /** The options with number `n` or more, in ascending order. */
  function OptionsBytes(options: Options, n: nat, last: Word): Outcome<ByteArray>
    requires n <= NUMBERS
    decreases NUMBERS - n
  {
    if n == NUMBERS then Ok([])
    else if n !in options then OptionsBytes(options, n + 1, last)
    else
      var entry :- EntryBytes(n, options[n], last);
      var rest :- OptionsBytes(options, n + 1, n);
      Ok(entry + rest)
  }

  function PayloadBytes(payload: ByteArray): ByteArray {
    if payload == [] then [] else [PAYLOAD_MARKER] + payload
  }

  function MessageBytes(m: Message): Outcome<ByteArray>
    requires m.header.TokenFits()
  {
    var header :- HeaderBytes(m.header);
    var options :- OptionsBytes(m.options, 0, 0);
    Ok(header + options + PayloadBytes(m.payload))
  }

  /** The inner loop of `Message::Serialize`: one option per path segment. */
  method SerializeSegments(aBuf: ByteArray, segs: seq<ByteArray>, last: Word) returns (r: Outcome<ByteArray>)
    ensures r == After(aBuf, SegmentBytes(segs, last))
  {
    var buf, lastOptionNumber := aBuf, last;
    ghost var goal := After(aBuf, SegmentBytes(segs, last));
    assert segs[0..] == segs;
    for i := 0 to |segs|
      invariant After(buf, SegmentBytes(segs[i..], lastOptionNumber)) == goal
    {
      var o := SerializeOption(buf, URI_PATH, segs[i], lastOptionNumber);
      assert segs[i..][1..] == segs[i + 1..];
      if !o.Ok? {
        return o;
      }
      ghost var first := OptionOutcome(URI_PATH, segs[i], lastOptionNumber).value;
      AfterAfter(buf, first, SegmentBytes(segs[i + 1..], URI_PATH));
      buf, lastOptionNumber := o.value, URI_PATH;
    }
    AfterNothing(buf, goal);
    r := Ok(buf);
  }

  /** `Message::Serialize(ByteArray &)`. */
  method Serialize(m: Message) returns (r: Outcome<ByteArray>)
    requires m.header.TokenFits()
    ensures r == MessageBytes(m)
  {
    var header := HeaderBytes(m.header);
    if !header.Ok? {
      return header;
    }
    hide OptionOutcome, SegmentBytes, Split;
    var buf, lastOptionNumber: Word := header.value, 0;
    ghost var goal := After(buf, OptionsBytes(m.options, 0, 0));
    for number := 0 to NUMBERS
      invariant After(buf, OptionsBytes(m.options, number, lastOptionNumber)) == goal
    {
      if number in m.options {
        var value := m.options[number];
        var o;
        if number == URI_PATH {
          var uriPathSegments := SplitUriPath(value);
          o := SerializeSegments(buf, uriPathSegments, lastOptionNumber);
        } else {
          o := SerializeOption(buf, number, value, lastOptionNumber);
        }
        if !o.Ok? {
          return o;
        }
        AfterAfter(buf, EntryBytes(number, value, lastOptionNumber).value, OptionsBytes(m.options, number + 1, number));
        buf, lastOptionNumber := o.value, number;
      }
    }
    AfterNothing(buf, goal);
    if |m.payload| > 0 {
      assert buf + [PAYLOAD_MARKER] + m.payload == buf + ([PAYLOAD_MARKER] + m.payload);
      buf := buf + [PAYLOAD_MARKER] + m.payload;
    } else {
      assert buf == buf + PayloadBytes(m.payload);
    }
    r := Ok(buf);
  }

  // ---------------------------------------------------------------------------
  // Parsing
  // ---------------------------------------------------------------------------

  function HeaderSize(h: Header): nat {
    4 + h.tokenLength
  }

  function ParseHeader(buf: ByteArray): (r: Outcome<Header>)
    ensures r.Ok? ==> r.value.TokenFits() && HeaderSize(r.value) <= |buf|
  {
    if |buf| < 4 || |buf| < 4 + buf[0] % 16 then Err(BadFormat)
    else
      var length := buf[0] % 16;
      Ok(Header(buf[0] / 64, buf[0] / 16 % 4, length, buf[1], Pair(buf[2], buf[3]),
                buf[4..4 + if length <= MAX_TOKEN_LENGTH then length else MAX_TOKEN_LENGTH]))
  }

  /** `Message::AppendOption`. */
  function AppendOption(options: Options, number: Word, value: ByteArray): Outcome<Options> {
    if !IsValidOption(number, value) then Err(InvalidArgs)
    else if number == URI_PATH then
      var seg :- Normalize(value);
      Ok(options[URI_PATH := PathOf(options) + seg])
    else if number in options then Ok(options)
    else Ok(options[number := value])
  }

  /** `Message::SetUriPath`: the path is normalised here and once more when it is appended. */
  function SetUriPath(options: Options, path: ByteArray): Outcome<Options> {
    var normalized :- Normalize(path);
    AppendOption(options, URI_PATH, normalized)
  }

  function PathOf(options: Options): ByteArray {
    if URI_PATH in options then options[URI_PATH] else []
  }

  /** One received option: errors of elective options are ignored. */
  function AcceptOption(options: Options, number: Word, value: ByteArray): Outcome<Options> {
    var r := if IsValidOption(number, value) then AppendOption(options, number, value) else Err(BadFormat);
    if !r.Ok? && !IsCriticalOption(number) then Ok(options) else r
  }

  /** The options read and the bytes they took. */
  datatype OptionList = OptionList(options: Options, size: nat)

  function Shift(k: nat, r: Outcome<OptionList>): Outcome<OptionList> {
    match r
    case Ok(l) => Ok(OptionList(l.options, k + l.size))
    case _ => r
  }

  /** The options at the start of `rest`, up to its end or to the payload marker. */
  function ParseOptions(rest: ByteArray, last: Word, options: Options): (r: Outcome<OptionList>)
    ensures r.Ok? ==> r.value.size <= |rest|
    ensures r.Ok? && r.value.size < |rest| ==> rest[r.value.size] == PAYLOAD_MARKER
    decreases |rest|
  {
    if rest == [] || rest[0] == PAYLOAD_MARKER then Ok(OptionList(options, 0))
    else
      var p :- ParseOption(rest, last);
      var accepted :- AcceptOption(options, p.number, p.value);
      Shift(p.size, ParseOptions(rest[p.size..], p.number, accepted))
  }

  /** Go on parsing with the options accepted so far, `k` bytes further on. */
  function Continue(k: nat, rest: ByteArray, last: Word, accepted: Outcome<Options>): Outcome<OptionList> {
    var options :- accepted;
    Shift(k, ParseOptions(rest, last, options))
  }

  lemma ParseAtEnd(tail: ByteArray, last: Word, options: Options)
    requires tail == [] || tail[0] == PAYLOAD_MARKER
    ensures ParseOptions(tail, last, options) == Ok(OptionList(options, 0))
  {
  }

  function ParseMessage(buf: ByteArray): Outcome<Message> {
    var header :- ParseHeader(buf);
    if !header.IsValid() then Err(BadFormat) else
    var start := HeaderSize(header);
    var list :- ParseOptions(buf[start..], 0, map[]);
    var end := start + list.size;
    if end == |buf| then Ok(Message(header, list.options, []))
    else if end + 1 == |buf| then Err(BadFormat)
    else Ok(Message(header, list.options, buf[end + 1..]))
  }

  /** `Message::Deserialize(Header &, const ByteArray &, size_t &)` from offset zero. */
  method DeserializeHeader(aBuf: ByteArray) returns (r: Outcome<(Header, nat)>)
    ensures r == match ParseHeader(aBuf)
                 case Ok(h) => Ok((h, HeaderSize(h)))
                 case Err(e) => Err(e)
                 case Aborted => Aborted
  {
    var offset: nat := 0;
    if offset >= |aBuf| {
      return Err(BadFormat);
    }
    var version, typ, tokenLength := aBuf[offset] / 64, aBuf[offset] / 16 % 4, aBuf[offset] % 16;
    offset := offset + 1;
    if offset >= |aBuf| {
      return Err(BadFormat);
    }
    var code := aBuf[offset];
    offset := offset + 1;
    if offset + 1 >= |aBuf| {
      return Err(BadFormat);
    }
    var messageId := Pair(aBuf[offset], aBuf[offset + 1]);
    offset := offset + 2;
    if offset + tokenLength > |aBuf| {
      return Err(BadFormat);
    }
    var kept := if tokenLength <= MAX_TOKEN_LENGTH then tokenLength else MAX_TOKEN_LENGTH;
    var token := aBuf[offset..offset + kept];
    offset := offset + tokenLength;
    r := Ok((Header(version, typ, tokenLength, code, messageId, token), offset));
  }

  lemma ParseStep(rest: ByteArray, last: Word, options: Options)
    requires rest != [] && rest[0] != PAYLOAD_MARKER
    ensures !ParseOption(rest, last).Ok? ==> ParseOptions(rest, last, options) == ParseOption(rest, last).PropagateFailure()
    ensures ParseOption(rest, last).Ok? ==>
              var p := ParseOption(rest, last).value;
              ParseOptions(rest, last, options)
              == Continue(p.size, rest[p.size..], p.number, AcceptOption(options, p.number, p.value))
  {
  }

  /** The option loop of `Message::Deserialize`: the options from `start` on and where they end. */
  method DeserializeOptions(aBuf: ByteArray, start: nat) returns (r: Outcome<OptionList>)
    requires start <= |aBuf|
    ensures r == Shift(start, ParseOptions(aBuf[start..], 0, map[]))
  {
    hide ParseOptions, ParseOption, AcceptOption;
    var options: Options, lastOptionNumber: Word, offset := map[], 0, start;
    ghost var goal := Shift(start, ParseOptions(aBuf[start..], 0, map[]));
    while offset < |aBuf| && aBuf[offset] != PAYLOAD_MARKER
      invariant offset <= |aBuf|
      invariant Shift(offset, ParseOptions(aBuf[offset..], lastOptionNumber, options)) == goal
    {
      ParseStep(aBuf[offset..], lastOptionNumber, options);
      var o := DeserializeOption(aBuf, offset, lastOptionNumber);
      if !o.Ok? {
        return o.PropagateFailure();
      }
      var (number, value, next) := o.value;
      assert aBuf[offset..][next - offset..] == aBuf[next..];
      var accepted := AcceptOption(options, number, value);
      if !accepted.Ok? {
        return accepted.PropagateFailure();
      }
      options, lastOptionNumber, offset := accepted.value, number, next;
    }
    ParseAtEnd(aBuf[offset..], lastOptionNumber, options);
    r := Ok(OptionList(options, offset));
  }

  /** `Message::Deserialize(Error &, const ByteArray &)`. */
  method Deserialize(aBuf: ByteArray) returns (r: Outcome<Message>)
    ensures r == ParseMessage(aBuf)
  {
    hide ParseOptions, ParseHeader;
    var h := DeserializeHeader(aBuf);
    if !h.Ok? {
      return h.PropagateFailure();
    }
    var (header, offset) := h.value;
    if !header.IsValid() {
      return Err(BadFormat);
    }
    var list := DeserializeOptions(aBuf, offset);
    if !list.Ok? {
      return list.PropagateFailure();
    }
    offset := list.value.size;
    var payload: ByteArray := [];
    if offset < |aBuf| {
      offset := offset + 1;
      if offset >= |aBuf| {
        return Err(BadFormat);
      }
      payload := aBuf[offset..];
    }
    r := Ok(Message(header, list.value.options, payload));
  }

  // ---------------------------------------------------------------------------
  // Round trip
  // ---------------------------------------------------------------------------

  lemma HeaderRoundTrip(h: Header, rest: ByteArray)
    requires h.TokenFits() && h.IsValid()
    ensures var bytes := HeaderBytes(h).value;
            |bytes| == HeaderSize(h) && ParseHeader(bytes + rest) == Ok(h)
  {
    var bytes := HeaderBytes(h).value;
    var buf := bytes + rest;
    FirstByte(h.version, h.typ, h.tokenLength);
    TwoDigits(h.messageId);
    assert buf[4..4 + h.tokenLength] == h.token;
  }

  lemma FirstByte(version: Bits2, typ: Bits2, length: Bits4)
    ensures var b := 64 * version + 16 * typ + length;
            0 <= b < 256 && b / 64 == version && b / 16 % 4 == typ && b % 16 == length
  {
  }

  function WithPath(options: Options, path: Outcome<ByteArray>): Outcome<Options> {
    var p :- path;
    Ok(options[URI_PATH := p])
  }

  function Sized(options: Outcome<Options>, k: nat): Outcome<OptionList> {
    var o :- options;
    Ok(OptionList(o, k))
  }

  /** Reading one serialised option is one accepting step. */
  lemma ParseOneOption(number: Word, value: ByteArray, last: Word, rest: ByteArray, options: Options)
    requires OptionOutcome(number, value, last).Ok?
    ensures IsValidOption(number, value)
    ensures var bytes := OptionOutcome(number, value, last).value;
            ParseOptions(bytes + rest, last, options) == Continue(|bytes|, rest, number, AcceptOption(options, number, value))
  {
    var bytes := OptionOutcome(number, value, last).value;
    OptionRoundTrip(number, value, last, rest);
    assert (bytes + rest)[|bytes|..] == rest;
    assert (bytes + rest)[0] == bytes[0];
  }

  /** Reading the options of a path appends its segments one by one. */
  lemma {:induction false} ParseSegments(segs: seq<ByteArray>, last: Word, rest: ByteArray, options: Options)
    requires segs != [] && SegmentBytes(segs, last).Ok?
    ensures var bytes := SegmentBytes(segs, last).value;
            ParseOptions(bytes + rest, last, options) ==
            Continue(|bytes|, rest, URI_PATH, WithPath(options, AppendSegments(PathOf(options), segs)))
    decreases |segs|
  {
    hide ParseOptions, OptionOutcome, Normalize, IsValidOption;
    var first := OptionOutcome(URI_PATH, segs[0], last).value;
    var more := SegmentBytes(segs[1..], URI_PATH).value;
    assert first + more + rest == first + (more + rest);
    ParseOneOption(URI_PATH, segs[0], last, more + rest, options);
    var appended := AppendOption(options, URI_PATH, segs[0]);
    if appended.Ok? {
      var o := appended.value;
      var path := AppendSegments(PathOf(o), segs[1..]);
      if |segs| > 1 {
        ParseSegments(segs[1..], URI_PATH, rest, o);
        assert path.Ok? ==> o[URI_PATH := path.value] == options[URI_PATH := path.value];
      } else {
        assert more + rest == rest && first + more == first;
      }
    }
  }

  /** The option map a receiver builds from the options with number `n` or more. */
  function Delivered(options: Options, n: nat, received: Options): Outcome<Options>
    requires n <= NUMBERS
    decreases NUMBERS - n
  {
    if n == NUMBERS then Ok(received)
    else if n !in options then Delivered(options, n + 1, received)
    else if n == URI_PATH then
      var path :- Rejoin(options[n]);
      Delivered(options, n + 1, received[n := path])
    else Delivered(options, n + 1, received[n := options[n]])
  }

  lemma SplitIsNonempty(path: ByteArray)
    ensures Split(path) != []
  {
  }

  lemma {:induction false} ParseOptionsOfBytes(options: Options, n: nat, last: Word, tail: ByteArray, received: Options)
    requires n <= NUMBERS
    requires OptionsBytes(options, n, last).Ok?
    requires tail == [] || tail[0] == PAYLOAD_MARKER
    requires forall k :: k in received ==> k < n
    ensures var bytes := OptionsBytes(options, n, last).value;
            ParseOptions(bytes + tail, last, received) == Sized(Delivered(options, n, received), |bytes|)
    decreases NUMBERS - n
  {
    hide ParseOptions, OptionOutcome, Normalize, IsValidOption, SegmentBytes, Split, AppendSegments;
    if n == NUMBERS {
      assert [] + tail == tail;
      ParseAtEnd(tail, last, received);
    } else if n !in options {
      ParseOptionsOfBytes(options, n + 1, last, tail, received);
    } else {
      var entry := EntryBytes(n, options[n], last).value;
      var rest := OptionsBytes(options, n + 1, n).value;
      assert entry + rest + tail == entry + (rest + tail);
      if n == URI_PATH {
        SplitIsNonempty(options[n]);
        ParseSegments(Split(options[n]), last, rest + tail, received);
        var path := Rejoin(options[n]);
        if path.Ok? {
          ParseOptionsOfBytes(options, n + 1, n, tail, received[n := path.value]);
        }
      } else {
        ParseOneOption(n, options[n], last, rest + tail, received);
        ParseOptionsOfBytes(options, n + 1, n, tail, received[n := options[n]]);
      }
    }
  }

  /** Everything is delivered as it is, except that the path is split and re-joined. */
  function WithRejoinedPath(options: Options): Outcome<Options> {
    if URI_PATH !in options then Ok(options) else WithPath(options, Rejoin(options[URI_PATH]))
  }

  lemma {:induction false} DeliveredIs(options: Options, n: nat, received: Options)
    requires n <= NUMBERS
    requires received.Keys == set k | k in options && k < n
    requires forall k :: k in received && k != URI_PATH ==> received[k] == options[k]
    requires URI_PATH in received ==> Rejoin(options[URI_PATH]) == Ok(received[URI_PATH])
    ensures Delivered(options, n, received) == WithRejoinedPath(options)
    decreases NUMBERS - n
  {
    hide Rejoin;
    if n == NUMBERS {
      assert received.Keys == options.Keys;
      if URI_PATH in options {
        assert received == options[URI_PATH := received[URI_PATH]];
      } else {
        assert received == options;
      }
    } else if n !in options {
      DeliveredIs(options, n + 1, received);
    } else if n == URI_PATH {
      var path := Rejoin(options[n]);
      if path.Ok? {
        DeliveredIs(options, n + 1, received[n := path.value]);
      }
    } else {
      DeliveredIs(options, n + 1, received[n := options[n]]);
    }
  }

  function Assembled(header: Header, options: Outcome<Options>, payload: ByteArray): Outcome<Message> {
    var o :- options;
    Ok(Message(header, o, payload))
  }

  /**
   What a receiver makes of any message that serialises: the same header, payload and
   options, with the path split and re-joined.
   */
  lemma ParseSerialized(m: Message)
    requires m.header.TokenFits() && MessageBytes(m).Ok?
    ensures ParseMessage(MessageBytes(m).value) == Assembled(m.header, WithRejoinedPath(m.options), m.payload)
  {
    hide ParseOptions, OptionsBytes, Delivered, WithRejoinedPath;
    var header, options, tail := HeaderBytes(m.header).value, OptionsBytes(m.options, 0, 0).value, PayloadBytes(m.payload);
    var buf := MessageBytes(m).value;
    assert buf == header + (options + tail);
    HeaderRoundTrip(m.header, options + tail);
    assert buf[|header|..] == options + tail;
    ParseOptionsOfBytes(m.options, 0, 0, tail, map[]);
    DeliveredIs(m.options, 0, map[]);
    if m.payload != [] {
      assert buf[|header| + |options| + 1..] == m.payload;
    }
  }

  /** Whole-message round trip, with the exact condition under which it holds. */
  lemma MessageRoundTrip(m: Message)
    requires m.header.TokenFits() && MessageBytes(m).Ok?
    ensures ParseMessage(MessageBytes(m).value) == Ok(m)
       <==> (URI_PATH in m.options ==> Canonical(m.options[URI_PATH]))
  {
    ParseSerialized(m);
    if URI_PATH in m.options {
      var path := m.options[URI_PATH];
      RejoinIsIdentityIffCanonical(path);
      var rejoined := Rejoin(path);
      if rejoined.Ok? {
        assert m.options[URI_PATH := rejoined.value][URI_PATH] == rejoined.value;
        assert m.options[URI_PATH := path] == m.options;
      }
    }
  }

  lemma HeaderOfParsed(buf: ByteArray)
    requires ParseHeader(buf).Ok? && ParseHeader(buf).value.IsValid()
    ensures var h := ParseHeader(buf).value;
            HeaderBytes(h) == Ok(buf[..HeaderSize(h)])
  {
    var h := ParseHeader(buf).value;
    assert 64 * h.version + 16 * h.typ + h.tokenLength == buf[0];
    assert h.messageId / 256 == buf[2] && h.messageId % 256 == buf[3];
    assert buf[..4] == [buf[0], buf[1], buf[2], buf[3]];
    assert buf[..4 + h.tokenLength] == buf[..4] + buf[4..4 + h.tokenLength];
  }

  /** An option on the wire. Its value has as many bytes as 16 bits keep of its length. */
  datatype Piece = Piece(delta: nat, length: nat, value: ByteArray) {
    predicate WellFormed() {
      delta <= MAX_EXTENDED && length <= MAX_EXTENDED && |value| == Wrap16(length)
    }
  }

  predicate WellFormed(list: seq<Piece>) {
    forall i :: 0 <= i < |list| ==> list[i].WellFormed()
  }

  function PieceBytes(list: seq<Piece>): ByteArray {
    if list == [] then []
    else RfcHead(list[0].delta, list[0].length) + list[0].value + PieceBytes(list[1..])
  }

  /** What a receiver makes of options that follow an option with number `last`. */
  function Received(list: seq<Piece>, last: Word, options: Options): Outcome<Options>
    requires WellFormed(list)
  {
    if list == [] then Ok(options)
    else
      var number := Wrap16(last + Wrap16(list[0].delta));
      var accepted :- AcceptOption(options, number, list[0].value);
      Received(list[1..], number, accepted)
  }

  lemma OnePieceMore(p: Piece, more: seq<Piece>, last: Word, options: Options)
    requires p.WellFormed() && WellFormed(more)
    requires AcceptOption(options, Wrap16(last + Wrap16(p.delta)), p.value).Ok?
    ensures var (list, number) := ([p] + more, Wrap16(last + Wrap16(p.delta)));
            && WellFormed(list) && PieceBytes(list) == RfcHead(p.delta, p.length) + p.value + PieceBytes(more)
            && Received(list, last, options) == Received(more, number, AcceptOption(options, number, p.value).value)
  {
    hide AcceptOption, RfcHead;
    assert ([p] + more)[1..] == more;
  }

  lemma Halves(s: ByteArray, k: nat, n: nat)
    requires k <= |s| && n <= |s[k..]|
    ensures s[..k + n] == s[..k] + s[k..][..n]
  {
  }

  /** Whatever the option parser accepts is a list of options in the format of the RFC, accepted in order. */
  lemma {:induction false} ParsedOptionsAreRfc(rest: ByteArray, last: Word, options: Options) returns (list: seq<Piece>)
    requires ParseOptions(rest, last, options).Ok?
    ensures var r := ParseOptions(rest, last, options).value;
            WellFormed(list) && PieceBytes(list) == rest[..r.size] && Received(list, last, options) == Ok(r.options)
    decreases |rest|
  {
    if rest == [] || rest[0] == PAYLOAD_MARKER {
      list := [];
    } else {
      hide ParseOption, AcceptOption, RfcHead, PieceBytes, Received, WellFormed;
      var p := ParseOption(rest, last).value;
      var accepted := AcceptOption(options, p.number, p.value).value;
      var delta, length := ParseOptionIsRfc(rest, last);
      var more := ParsedOptionsAreRfc(rest[p.size..], p.number, accepted);
      list := [Piece(delta, length, p.value)] + more;
      OnePieceMore(Piece(delta, length, p.value), more, last, options);
      Halves(rest, p.size, ParseOptions(rest[p.size..], p.number, accepted).value.size);
    }
  }

  /** Conversely, any list of options in that format is read as what a receiver makes of it. */
  lemma {:induction false} ParsePieces(list: seq<Piece>, tail: ByteArray, last: Word, options: Options)
    requires WellFormed(list) && (tail == [] || tail[0] == PAYLOAD_MARKER)
    ensures ParseOptions(PieceBytes(list) + tail, last, options)
            == match Received(list, last, options)
               case Ok(o) => Ok(OptionList(o, |PieceBytes(list)|))
               case Err(e) => Err(e)
               case Aborted => Aborted
  {
    hide ParseOption, AcceptOption, RfcHead, ParseOptions, Wrap16;
    if list == [] {
      assert [] + tail == tail;
      ParseAtEnd(tail, last, options);
    } else {
      var (p, more) := (list[0], PieceBytes(list[1..]) + tail);
      var first := RfcHead(p.delta, p.length) + p.value;
      var number := Wrap16(last + Wrap16(p.delta));
      assert PieceBytes(list) + tail == first + more;
      ParsePiece(p, more, last);
      ParseStep(first + more, last, options);
      assert (first + more)[|first|..] == more;
      var accepted := AcceptOption(options, number, p.value);
      if accepted.Ok? {
        ParsePieces(list[1..], tail, number, accepted.value);
      }
    }
  }

  lemma ParsePiece(p: Piece, more: ByteArray, last: Word)
    requires p.WellFormed()
    ensures var first := RfcHead(p.delta, p.length) + p.value;
            && first[0] != PAYLOAD_MARKER
            && ParseOption(first + more, last)
               == Ok(ParsedOption(Wrap16(last + Wrap16(p.delta)), p.value, |first|))
  {
    hide RfcHead, ParseHead;
    var head := RfcHead(p.delta, p.length);
    ParseHeadOfRfc(p.delta, p.length, p.value + more);
    assert head + p.value + more == head + (p.value + more);
    assert (head + p.value + more)[|head|..|head| + |p.value|] == p.value;
  }

  /**
   A parsed buffer is accounted for byte by byte: the header, the options in the format of the RFC,
   from which the receiver made the option map, the marker and the payload.
   */
  lemma ParsedSize(buf: ByteArray) returns (list: seq<Piece>)
    requires ParseMessage(buf).Ok?
    ensures var m := ParseMessage(buf).value;
            && m.header.TokenFits() && HeaderBytes(m.header) == Ok(buf[..HeaderSize(m.header)])
            && WellFormed(list) && Received(list, 0, map[]) == Ok(m.options)
            && ParseOptions(buf[HeaderSize(m.header)..], 0, map[]).value.size == |PieceBytes(list)|
            && buf == buf[..HeaderSize(m.header)] + PieceBytes(list) + PayloadBytes(m.payload)
  {
    hide ParseHeader, ParseOptions, HeaderBytes, PieceBytes, Received, WellFormed;
    HeaderOfParsed(buf);
    var m := ParseMessage(buf).value;
    var start := HeaderSize(m.header);
    list := ParsedOptionsAreRfc(buf[start..], 0, map[]);
    var end := start + |PieceBytes(list)|;
    assert buf[start..][..end - start] == buf[start..end];
    if end < |buf| {
      assert buf[end..] == [buf[end]] + buf[end + 1..];
    }
    assert buf == buf[..start] + buf[start..end] + buf[end..];
  }

  // ---------------------------------------------------------------------------
  // Which messages serialise
  // ---------------------------------------------------------------------------

  /** The number of the option before `n`, or zero: what the delta of option `n` is taken from. */
  function Previous(options: Options, n: nat): (last: Word)
    requires n <= NUMBERS
    ensures last <= n && (last == n ==> n == 0)
  {
    if n == 0 then 0 else if n - 1 in options then n - 1 else Previous(options, n - 1)
  }

  /** A value that the option encoder accepts and whose length passes its self-check. */
  predicate ValueFits(number: Word, value: ByteArray) {
    IsValidOption(number, value) && SelfCheckPasses(|value|)
  }

  /** Delta and value of option `n`, or of each segment when it is the path. */
  predicate OptionFits(options: Options, n: Word)
    requires n in options
  {
    && SelfCheckPasses(n - Previous(options, n))
    && if n == URI_PATH then forall seg :: seg in Split(options[n]) ==> ValueFits(URI_PATH, seg)
       else ValueFits(n, options[n])
  }

  lemma {:induction false} SegmentsSerialiseIff(segs: seq<ByteArray>, last: Word)
    requires last <= URI_PATH
    ensures SegmentBytes(segs, last).Ok? <==> forall seg :: seg in segs ==> ValueFits(URI_PATH, seg)
    decreases |segs|
  {
    hide IsValidOption;
    if segs == [] {
    } else {
      SegmentsSerialiseIff(segs[1..], URI_PATH);
      assert segs == [segs[0]] + segs[1..];
      assert forall seg :: seg in segs <==> seg == segs[0] || seg in segs[1..];
      assert SelfCheckPasses(URI_PATH - last);
      assert OptionOutcome(URI_PATH, segs[0], last).Ok? <==> ValueFits(URI_PATH, segs[0]);
      assert SegmentBytes(segs, last).Ok? <==> ValueFits(URI_PATH, segs[0]) && SegmentBytes(segs[1..], URI_PATH).Ok?;
    }
  }

  lemma EntrySerialisesIff(options: Options, n: Word)
    requires n in options
    ensures EntryBytes(n, options[n], Previous(options, n)).Ok? <==> OptionFits(options, n)
  {
    hide IsValidOption, SegmentBytes, Split;
    if n == URI_PATH {
      SegmentsSerialiseIff(Split(options[n]), Previous(options, n));
    }
  }

  lemma {:induction false} OptionsSerialiseIff(options: Options, n: nat)
    requires n <= NUMBERS
    ensures OptionsBytes(options, n, Previous(options, n)).Ok? <==>
            forall k :: k in options && n <= k ==> OptionFits(options, k)
    decreases NUMBERS - n
  {
    hide OptionFits, EntryBytes;
    if n == NUMBERS {
    } else {
      OptionsSerialiseIff(options, n + 1);
      if n in options {
        EntrySerialisesIff(options, n);
      }
    }
  }

  /**
   A message serialises if and only if its header is valid, every option of its map is one the
   encoder accepts, and every delta between neighbours and every length of a value or of a path
   segment is at most 13 or at least 269.
   */
  lemma SerialisesIff(m: Message)
    requires m.header.TokenFits()
    ensures MessageBytes(m).Ok? <==> m.header.IsValid() && forall k :: k in m.options ==> OptionFits(m.options, k)
  {
    hide OptionFits, OptionsBytes;
    OptionsSerialiseIff(m.options, 0);
  }
}
