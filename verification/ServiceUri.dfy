/**
 The service URIs of src/library/uri.hpp that have the shape "/c/xy" with three lower-case
 letters, and the requests that carry them.
 */
module ServiceUri {
  import opened Outcomes
  import opened Bytes
  import opened CoapOption
  import opened UriPath
  import opened CoapMessage

  type Letter = b: int | 97 <= b <= 122 witness 97

  function Service(c: Letter, x: Letter, y: Letter): ByteArray {
    [SLASH, c, SLASH, x, y]
  }

  const PETITIONING := Service(99, 99, 112)            // "/c/cp"
  const LEADER_PETITIONING := Service(99, 108, 112)    // "/c/lp"
  const KEEP_ALIVE := Service(99, 99, 97)              // "/c/ca"
  const LEADER_KEEP_ALIVE := Service(99, 108, 97)      // "/c/la"
  const UDP_TX := Service(99, 117, 116)                // "/c/ut"
  const MGMT_COMMISSIONER_SET := Service(99, 99, 115)  // "/c/cs"
  const MGMT_ACTIVE_SET := Service(99, 97, 115)        // "/c/as"
  const MGMT_PENDING_SET := Service(99, 112, 115)      // "/c/ps"
  const MULTICAST_LISTENER := Service(110, 109, 114)   // "/n/mr"

  lemma SplitService(c: Letter, x: Letter, y: Letter)
    ensures Split(Service(c, x, y)) == [[c], [x, y]]
  {
    var s, last := Service(c, x, y), [x, y];
    var rest := s[1..];
    assert Run(last) == 2 && last[..2] == last && last[2..] == [];
    assert Segments(last) == [last] + Segments([]);
    assert rest[1..] == [SLASH, x, y] && [SLASH, x, y][1..] == last;
    assert Segments([SLASH, x, y]) == Segments(last);
    assert Run(rest) == 1 && rest[..1] == [c];
    assert Segments(rest) == [[c]] + Segments([SLASH, x, y]);
  }

  lemma ServiceIsCanonical(c: Letter, x: Letter, y: Letter)
    ensures Canonical(Service(c, x, y))
  {
  }

  lemma NormalizeService(c: Letter, x: Letter, y: Letter)
    ensures Normalize(Service(c, x, y)) == Ok(Service(c, x, y))
  {
    var s := Service(c, x, y);
    assert s[0..5] == s && Trim(s) == s;
    assert PERCENT !in s;
    assert IndexOf(s, PERCENT, 0) == None;
  }

  /** `SetUriPath` leaves a service URI as it is. */
  lemma PathIsSet(c: Letter, x: Letter, y: Letter)
    ensures SetUriPath(map[], Service(c, x, y)) == Ok(map[URI_PATH := Service(c, x, y)])
  {
    hide Normalize;
    NormalizeService(c, x, y);
    assert [] + Service(c, x, y) == Service(c, x, y);
  }

  /** The two Uri-Path options of a service URI on the wire. */
  function PathBytes(c: Letter, x: Letter, y: Letter): ByteArray {
    [0xB1 as Byte, c, 0x02, x, y]
  }

  lemma SegmentsOfService(c: Letter, x: Letter, y: Letter)
    ensures SegmentBytes([[c], [x, y]], 0) == Ok(PathBytes(c, x, y))
  {
    var segs: seq<ByteArray> := [[c], [x, y]];
    assert segs[1..] == [[x, y]] && segs[1..][1..] == [];
    var first: ByteArray, second: ByteArray := [0xB1 as Byte, c], [0x02 as Byte, x, y];
    assert OptionOutcome(URI_PATH, segs[0], 0) == Ok(first) by {
      assert RfcOption(11, segs[0]) == first;
      assert IsValidOption(URI_PATH, segs[0]);
    }
    assert OptionOutcome(URI_PATH, segs[1], URI_PATH) == Ok(second) by {
      assert RfcOption(0, segs[1]) == second;
      assert IsValidOption(URI_PATH, segs[1]);
    }
    assert SegmentBytes(segs[1..], URI_PATH) == Ok(second) by {
      assert second + [] == second;
    }
    assert first + second == PathBytes(c, x, y);
  }

  /** The options of a message whose only option is the path. */
  lemma {:induction false} OnlyPath(path: ByteArray, n: nat)
    requires n <= NUMBERS
    ensures OptionsBytes(map[URI_PATH := path], n, if n <= URI_PATH then 0 else URI_PATH)
            == if n <= URI_PATH then EntryBytes(URI_PATH, path, 0) else Ok([])
    decreases NUMBERS - n
  {
    hide EntryBytes;
    if n < NUMBERS {
      OnlyPath(path, n + 1);
      var entry := EntryBytes(URI_PATH, path, 0);
      assert entry.Ok? ==> entry.value + [] == entry.value;
    }
  }

  lemma PathSerialises(c: Letter, x: Letter, y: Letter)
    ensures OptionsBytes(map[URI_PATH := Service(c, x, y)], 0, 0) == Ok(PathBytes(c, x, y))
  {
    hide OptionsBytes, Service, SegmentBytes, Split;
    OnlyPath(Service(c, x, y), 0);
    SplitService(c, x, y);
    SegmentsOfService(c, x, y);
  }

  /** A request to a service serialises, and a receiver reads back the very same request. */
  lemma RequestRoundTrip(h: Header, c: Letter, x: Letter, y: Letter, payload: ByteArray)
    requires h.IsValid() && h.TokenFits()
    ensures var m := Message(h, map[URI_PATH := Service(c, x, y)], payload);
            MessageBytes(m).Ok? && ParseMessage(MessageBytes(m).value) == Ok(m)
  {
    hide OptionsBytes, ParseMessage, Service, Canonical;
    PathSerialises(c, x, y);
    ServiceIsCanonical(c, x, y);
    MessageRoundTrip(Message(h, map[URI_PATH := Service(c, x, y)], payload));
  }
}
