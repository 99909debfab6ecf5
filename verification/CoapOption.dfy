/**
 CoAP options: which ones the library accepts, the wire format of section 3.1 of
 RFC 7252, and the option encoder and decoder of src/library/coap.cpp.
 */
module CoapOption {
  import opened Outcomes
  import opened Bytes

  const URI_PATH: Word := 11

  const PAYLOAD_MARKER: Byte := 0xFF

  /** Values 13 and 14 of a header nibble announce one or two extension bytes. */
  const ONE_BYTE_EXTENSION := 13
  const TWO_BYTE_EXTENSION := 14
  const ONE_BYTE_EXTENSION_OFFSET := 13
  const TWO_BYTE_EXTENSION_OFFSET := 269

  predicate IsValidOption(number: Word, value: ByteArray) {
    match number
    case 1 => |value| <= 8            // If-Match
    case 3 => 1 <= |value| <= 255     // Uri-Host
    case 4 => 1 <= |value| <= 8       // ETag
    case 5 => |value| == 0            // If-None-Match
    case 7 => |value| <= 2            // Uri-Port
    case 8 => |value| <= 255          // Location-Path
    case 11 => |value| <= 255         // Uri-Path
    case 12 => |value| <= 2           // Content-Format
    case 14 => |value| <= 4           // Max-Age
    case 15 => |value| <= 255         // Uri-Query
    case 17 => |value| <= 2           // Accept
    case 20 => |value| <= 255         // Location-Query
    case 35 => 1 <= |value| <= 1034   // Proxy-Uri
    case 39 => 1 <= |value| <= 255    // Proxy-Scheme
    case 60 => |value| <= 4           // Size1
    case _ => false
  }

  predicate IsCriticalOption(number: Word) {
    number in {1, 3, 5, 7, 11, 15, 17, 35, 39}
  }

  // ---------------------------------------------------------------------------
  // The format of section 3.1 of RFC 7252
  // ---------------------------------------------------------------------------

  /** The largest delta or length that two extension bytes can express. */
  const MAX_EXTENDED := 269 + 0xFFFF

  function Nibble(x: nat): (n: Byte)
    ensures n <= TWO_BYTE_EXTENSION
  {
    if x < 13 then x else if x < 269 then 13 else 14
  }

  function Extension(x: nat): (e: ByteArray)
  {
    if x < 13 then [] else if x < 269 then [x - 13] else BigEndian(2, x - 269)
  }

  /** First byte and extensions of an option with this delta and value length. */
  function RfcHead(delta: nat, length: nat): (h: ByteArray)
    ensures |h| >= 1 && h[0] != PAYLOAD_MARKER
  {
    [16 * Nibble(delta) + Nibble(length)] + Extension(delta) + Extension(length)
  }

  function RfcOption(delta: nat, value: ByteArray): ByteArray {
    RfcHead(delta, |value|) + value
  }

  // ---------------------------------------------------------------------------
  // The encoder
  // ---------------------------------------------------------------------------

  /**
   The header length is computed against the nibble codes 13 and 14, the bytes are
   written against the offsets 13 and 269. The two agree exactly here.
   */
  predicate SelfCheckPasses(x: nat) {
    x <= 13 || x >= 269
  }

  /** What serialising one option does, in terms of the RFC format. */
  function OptionOutcome(number: Word, value: ByteArray, last: Word): Outcome<ByteArray> {
    if number < last then Aborted
    else if !IsValidOption(number, value) then Err(InvalidArgs)
    else if SelfCheckPasses(number - last) && SelfCheckPasses(|value|) then Ok(RfcOption(number - last, value))
    else Aborted
  }

  /** Bytes reserved for an extension, from the nibble codes 13 and 14. */
  function Reserved(x: nat): nat {
    if x < ONE_BYTE_EXTENSION then 0 else if x < TWO_BYTE_EXTENSION then 1 else 2
  }

  /**
   Write delta or length `x` into the reserved bytes: its nibble into the first byte
   (`unit` is 16 for the delta, 1 for the length) and its extension from `extend` on.
   */
  method WriteExtended(buf: ByteArray, firstByte: nat, unit: nat, extend: nat, x: Word)
    returns (out: ByteArray, next: nat)
    requires firstByte < extend && extend + Reserved(x) <= |buf|
    requires unit in {1, 16} && buf[firstByte] + 14 * unit < 256
    ensures |out| == |buf| && next == extend + |Extension(x)| <= |buf|
    ensures out[..next] == buf[..firstByte] + [buf[firstByte] + unit * Nibble(x)]
                           + buf[firstByte + 1..extend] + Extension(x)
    ensures out[next..] == buf[next..]
  {
    out, next := buf, extend;
    if x < ONE_BYTE_EXTENSION_OFFSET {
      out := out[firstByte := out[firstByte] + unit * x];
    } else if x < TWO_BYTE_EXTENSION_OFFSET {
      out := out[firstByte := out[firstByte] + unit * ONE_BYTE_EXTENSION];
      out := out[next := x - ONE_BYTE_EXTENSION_OFFSET];
      next := next + 1;
    } else {
      var rest := x - TWO_BYTE_EXTENSION_OFFSET;
      out := out[firstByte := out[firstByte] + unit * TWO_BYTE_EXTENSION];
      out := out[next := rest / 256];
      out := out[next + 1 := rest % 256];
      next := next + 2;
      TwoDigits(rest);
    }
    Patched(buf, firstByte, extend, Extension(x), out);
  }

  /** A buffer changed in one byte and, further on, in a stretch of bytes. */
  lemma Patched(buf: ByteArray, i: nat, at: nat, bytes: ByteArray, out: ByteArray)
    requires i < at && at + |bytes| <= |buf| == |out|
    requires forall k :: 0 <= k < |bytes| ==> out[at + k] == bytes[k]
    requires forall k :: 0 <= k < |buf| && k != i && !(at <= k < at + |bytes|) ==> out[k] == buf[k]
    ensures out[..at + |bytes|] == buf[..i] + [out[i]] + buf[i + 1..at] + bytes
    ensures out[at + |bytes|..] == buf[at + |bytes|..]
  {
    assert out[at..at + |bytes|] == bytes;
    assert out[..i] == buf[..i] && out[i + 1..at] == buf[i + 1..at];
    assert out[..at + |bytes|] == out[..i] + [out[i]] + out[i + 1..at] + out[at..at + |bytes|];
  }

  /** An extension fits the reserved bytes, and fills them exactly when the self-check passes. */
  lemma ExtensionFits(x: nat)
    ensures |Extension(x)| <= Reserved(x) && (|Extension(x)| == Reserved(x) <==> SelfCheckPasses(x))
  {
  }

  lemma ValidLength(number: Word, value: ByteArray)
    requires IsValidOption(number, value)
    ensures |value| <= 1034
  {
  }

  /** `Message::Serialize(OptionType, ...)`: append one option to `aBuf`. */
  method SerializeOption(aBuf: ByteArray, number: Word, value: ByteArray, last: Word)
    returns (r: Outcome<ByteArray>)
    ensures var o := OptionOutcome(number, value, last);
            r == if o.Ok? then Ok(aBuf + o.value) else o
  {
    hide IsValidOption, Nibble, Extension, Reserved, SelfCheckPasses;
    if number < last {
      return Aborted;
    }
    if !IsValidOption(number, value) {
      return Err(InvalidArgs);
    }
    ValidLength(number, value);
    ExtensionFits(number - last);
    ExtensionFits(|value|);
    var delta := number - last;
    var firstByte := |aBuf|;
    var length := 1 + Reserved(delta) + Reserved(|value|);
    var buf: ByteArray := aBuf + seq(length, _ => 0);
    var extend;
    buf, extend := WriteExtended(buf, firstByte, 16, firstByte + 1, delta);
    assert buf[..extend] == aBuf + [16 * Nibble(delta)] + Extension(delta) by {
      assert (aBuf + seq(length, _ => 0))[..firstByte] == aBuf;
      assert aBuf + [16 * Nibble(delta)] + [] + Extension(delta) == aBuf + [16 * Nibble(delta)] + Extension(delta);
    }
    ghost var mid, before := extend, buf;
    MiddleParts(aBuf, 16 * Nibble(delta), Extension(delta), before);
    buf, extend := WriteExtended(buf, firstByte, 1, extend, |value|);
    if length + firstByte != extend {
      return Aborted;
    }
    r := Ok(buf + value);
    Assembled(aBuf, 16 * Nibble(delta) + Nibble(|value|), Extension(delta), Extension(|value|), value);
    assert buf == buf[..extend];
  }

  lemma MiddleParts(a: ByteArray, b: Byte, c: ByteArray, buf: ByteArray)
    requires |a| + 1 + |c| <= |buf| && buf[..|a| + 1 + |c|] == a + [b] + c
    ensures buf[..|a|] == a && buf[|a|] == b && buf[|a| + 1..|a| + 1 + |c|] == c
  {
    var head := buf[..|a| + 1 + |c|];
    assert head[..|a|] == a && head[|a|] == b && head[|a| + 1..] == c;
    assert buf[..|a|] == head[..|a|] && buf[|a| + 1..|a| + 1 + |c|] == head[|a| + 1..];
  }

  lemma Assembled(a: ByteArray, b: Byte, c: ByteArray, d: ByteArray, e: ByteArray)
    ensures a + [b] + c + d + e == a + ([b] + c + d + e)
  {
  }

  // ---------------------------------------------------------------------------
  // The decoder
  // ---------------------------------------------------------------------------

  datatype ParsedOption = ParsedOption(number: Word, value: ByteArray, size: nat)

  /** Bytes that the two nibbles announce, first byte included. */
  function HeadSize(d: nat, l: nat): nat {
    1 + Reserved(d) + Reserved(l)
  }

  /** The number written by nibble `n` and the bytes from `at` on, before any cut to 16 bits. */
  function Extended(n: nat, buf: ByteArray, at: nat): (x: nat)
    requires n < 15
    requires n >= 13 ==> at + (n - 12) <= |buf|
    ensures x <= MAX_EXTENDED
  {
    if n < 13 then n
    else if n == 13 then 13 + buf[at] as int
    else 269 + Pair(buf[at], buf[at + 1]) as int
  }

  /** Delta and value length as written, and the size of the header that writes them. */
  datatype Head = Head(delta: nat, length: nat, size: nat)

  function ParseHead(rest: ByteArray): (r: Outcome<Head>)
    ensures r.Ok? ==> 1 <= r.value.size <= |rest| && r.value.delta <= MAX_EXTENDED && r.value.length <= MAX_EXTENDED
  {
    if rest == [] then Err(BadFormat) else
    var d, l := rest[0] / 16, rest[0] % 16;
    if HeadSize(d, l) > |rest| then Err(BadFormat)
    else if d == 15 then (if l == 15 then Err(NotFound) else Err(BadFormat))
    else if l == 15 then Err(BadFormat)
    else Ok(Head(Extended(d, rest, 1), Extended(l, rest, HeadSize(d, 0)), HeadSize(d, l)))
  }

  /** Decode the option at the start of `rest`, in 16-bit arithmetic. */
  function ParseOption(rest: ByteArray, last: Word): (r: Outcome<ParsedOption>)
    ensures r.Ok? ==> 1 <= r.value.size <= |rest| && |r.value.value| < r.value.size
  {
    var head :- ParseHead(rest);
    var length := Wrap16(head.length);
    if head.size + length > |rest| then Err(BadFormat)
    else Ok(ParsedOption(Wrap16(last + Wrap16(head.delta)), rest[head.size..head.size + length], head.size + length))
  }

  /** Read the number that nibble `n` stands for, with its extension at `extend`. */
  method ReadExtended(aBuf: ByteArray, n: nat, extend: nat) returns (x: Word, next: nat)
    requires n < 15
    requires n >= 13 ==> extend + (n - 12) <= |aBuf|
    ensures x == Wrap16(Extended(n, aBuf, extend)) && next == extend + Reserved(n)
  {
    x, next := 0, extend;
    if n < ONE_BYTE_EXTENSION {
      x := n;
    } else if n == ONE_BYTE_EXTENSION {
      x := ONE_BYTE_EXTENSION_OFFSET + aBuf[extend] as int;
      next := next + 1;
    } else {
      x := Wrap16(TWO_BYTE_EXTENSION_OFFSET + Pair(aBuf[extend], aBuf[extend + 1]));
      next := next + 2;
    }
  }

  /** The first byte and the extensions of the option at `firstByte`. */
  method ReadHead(aBuf: ByteArray, firstByte: nat) returns (r: Outcome<(Word, Word, nat)>)
    requires firstByte <= |aBuf|
    ensures r == match ParseHead(aBuf[firstByte..])
                 case Ok(h) => Ok((Wrap16(h.delta), Wrap16(h.length), h.size))
                 case Err(e) => Err(e)
                 case Aborted => Aborted
  {
    if firstByte >= |aBuf| {
      return Err(BadFormat);
    }
    ghost var rest := aBuf[firstByte..];
    var d: nat, l: nat := aBuf[firstByte] / 16, aBuf[firstByte] % 16;
    var length := 1 + Reserved(d) + Reserved(l);
    if firstByte + length > |aBuf| {
      return Err(BadFormat);
    }
    if d == 15 {
      if l != 15 {
        return Err(BadFormat);
      }
      return Err(NotFound);
    }
    var delta, extend := ReadExtended(aBuf, d, firstByte + 1);
    if l == 15 {
      return Err(BadFormat);
    }
    var valueLength;
    valueLength, extend := ReadExtended(aBuf, l, extend);
    assert Extended(d, rest, 1) == Extended(d, aBuf, firstByte + 1);
    r := Ok((delta, valueLength, length));
  }

  /**
   `Message::Deserialize(OptionType &, ...)`: decode the option at `aOffset` and
   return it with the offset just behind it.
   */
  method DeserializeOption(aBuf: ByteArray, aOffset: nat, last: Word)
    returns (r: Outcome<(Word, ByteArray, nat)>)
    requires aOffset <= |aBuf|
    ensures r == match ParseOption(aBuf[aOffset..], last)
                 case Ok(p) => Ok((p.number, p.value, aOffset + p.size))
                 case Err(e) => Err(e)
                 case Aborted => Aborted
  {
    var head := ReadHead(aBuf, aOffset);
    if !head.Ok? {
      return head.PropagateFailure();
    }
    var (delta, valueLength, length) := head.value;
    var extend := aOffset + length;
    if valueLength + extend > |aBuf| {
      return Err(BadFormat);
    }
    SliceOfSuffix(aBuf, aOffset, length, length + valueLength);
    r := Ok((Wrap16(last + delta), aBuf[extend..extend + valueLength], aOffset + length + valueLength));
  }

  // ---------------------------------------------------------------------------
  // Encoder, decoder and format agree
  // ---------------------------------------------------------------------------

  lemma ExtendedOfExtension(x: nat, buf: ByteArray, at: nat)
    requires x <= MAX_EXTENDED
    requires at + |Extension(x)| <= |buf|
    requires buf[at..at + |Extension(x)|] == Extension(x)
    ensures Nibble(x) >= 13 ==> at + (Nibble(x) - 12) <= |buf|
    ensures Extended(Nibble(x), buf, at) == x
  {
    if x >= 269 {
      TwoDigits(x - 269);
      assert buf[at] == buf[at..at + 2][0] && buf[at + 1] == buf[at..at + 2][1];
    } else if x >= 13 {
      assert buf[at] == buf[at..at + 1][0];
    }
  }

  lemma ExtensionOfExtended(n: nat, buf: ByteArray, at: nat)
    requires n < 15
    requires at + Reserved(n) <= |buf|
    ensures Nibble(Extended(n, buf, at)) == n
    ensures Extension(Extended(n, buf, at)) == buf[at..at + Reserved(n)]
  {
    if n == 14 {
      PairDigits(buf[at], buf[at + 1]);
    }
  }

  /** The header decoder inverts the RFC format ... */
  lemma ParseHeadOfRfc(delta: nat, length: nat, rest: ByteArray)
    requires delta <= MAX_EXTENDED && length <= MAX_EXTENDED
    ensures ParseHead(RfcHead(delta, length) + rest) == Ok(Head(delta, length, |RfcHead(delta, length)|))
  {
    hide Nibble, Extension, Extended;
    var first := 16 * Nibble(delta) + Nibble(length);
    var head := RfcHead(delta, length);
    var buf, mid := head + rest, 1 + |Extension(delta)|;
    Nibbles(Nibble(delta), Nibble(length));
    ExtensionSize(delta);
    ExtensionSize(length);
    assert buf == [first] + Extension(delta) + Extension(length) + rest;
    FourParts(first, Extension(delta), Extension(length), rest);
    ExtendedOfExtension(delta, buf, 1);
    ExtendedOfExtension(length, buf, mid);
  }

  lemma Nibbles(d: nat, l: nat)
    requires d < 16 && l < 16
    ensures (16 * d + l) / 16 == d && (16 * d + l) % 16 == l
  {
  }

  lemma ExtensionSize(x: nat)
    ensures |Extension(x)| == Reserved(Nibble(x))
  {
  }

  lemma FourParts(a: Byte, b: ByteArray, c: ByteArray, d: ByteArray)
    ensures var s := [a] + b + c + d;
            s[0] == a && s[1..1 + |b|] == b && s[1 + |b|..1 + |b| + |c|] == c
  {
  }

  /** ... and accepts nothing else. */
  lemma ParseHeadIsRfc(rest: ByteArray)
    requires ParseHead(rest).Ok?
    ensures var h := ParseHead(rest).value;
            rest[..h.size] == RfcHead(h.delta, h.length)
  {
    hide Extended, Extension, Nibble;
    var d, l := rest[0] / 16, rest[0] % 16;
    var mid := HeadSize(d, 0);
    ExtensionOfExtended(d, rest, 1);
    ExtensionOfExtended(l, rest, mid);
    assert rest[..HeadSize(d, l)] == [rest[0]] + rest[1..mid] + rest[mid..HeadSize(d, l)];
  }

  /** Whenever the encoder completes, the decoder returns the option and stops right behind it. */
  lemma OptionRoundTrip(number: Word, value: ByteArray, last: Word, rest: ByteArray)
    requires OptionOutcome(number, value, last).Ok?
    ensures var bytes := OptionOutcome(number, value, last).value;
            && bytes != [] && bytes[0] != PAYLOAD_MARKER
            && ParseOption(bytes + rest, last) == Ok(ParsedOption(number, value, |bytes|))
  {
    hide RfcHead, ParseHead, IsValidOption, SelfCheckPasses;
    ValidLength(number, value);
    var head, bytes := RfcHead(number - last, |value|), RfcOption(number - last, value);
    ParseHeadOfRfc(number - last, |value|, value + rest);
    assert bytes + rest == head + (value + rest);
    assert (bytes + rest)[|head|..|bytes|] == value;
  }

  /**
   Conversely, whatever the decoder accepts is in the RFC format: there are a delta
   and a length whose header, followed by the value, are the bytes consumed. The
   16-bit arithmetic of the decoder shows in the number and in the value's length.
   */
  lemma ParseOptionIsRfc(rest: ByteArray, last: Word) returns (delta: nat, length: nat)
    requires ParseOption(rest, last).Ok?
    ensures delta <= MAX_EXTENDED && length <= MAX_EXTENDED
    ensures var p := ParseOption(rest, last).value;
            && p.number == Wrap16(last + Wrap16(delta))
            && |p.value| == Wrap16(length)
            && rest[..p.size] == RfcHead(delta, length) + p.value
  {
    var head := ParseHead(rest).value;
    delta, length := head.delta, head.length;
    ParseHeadIsRfc(rest);
    assert rest[..head.size + Wrap16(length)] == rest[..head.size] + rest[head.size..head.size + Wrap16(length)];
  }

  /** A path segment of fourteen bytes, which the format can express, aborts the encoder. */
  lemma FourteenByteSegmentAborts(value: ByteArray)
    requires |value| == 14
    ensures IsValidOption(URI_PATH, value) && OptionOutcome(URI_PATH, value, 0) == Aborted
  {
    assert !SelfCheckPasses(14);
  }
}
