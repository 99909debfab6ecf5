/**
 Uri-Path handling of src/library/coap.cpp: splitting a path into the segments that
 go on the wire, normalising a received segment, and appending it to a path.
 Strings are byte arrays; `isspace` and `isxdigit` are those of the C locale.
 */
module UriPath {
  import opened Outcomes
  import opened Bytes

  const SLASH: Byte := 0x2F
  const PERCENT: Byte := 0x25

  predicate IsSpace(c: Byte) {
    c == 0x20 || 0x09 <= c <= 0x0D
  }

  predicate IsXDigit(c: Byte) {
    0x30 <= c <= 0x39 || 0x41 <= c <= 0x46 || 0x61 <= c <= 0x66
  }

  /** The digit value the library uses: it does not add ten for the letters. */
  function XDigit(c: Byte): (d: Byte)
    requires IsXDigit(c)
    ensures d < 10
  {
    if 0x41 <= c <= 0x46 then c - 0x41 else if 0x61 <= c <= 0x66 then c - 0x61 else c - 0x30
  }

  /** The first position from `from` on that holds `c`. */
  function IndexOf(s: ByteArray, c: Byte, from: nat): (pos: Option<nat>)
    ensures pos.None? ==> forall i :: from <= i < |s| ==> s[i] != c
    ensures pos.Some? ==> from <= pos.value < |s| && s[pos.value] == c
    ensures pos.Some? ==> forall i :: from <= i < pos.value ==> s[i] != c
    decreases |s| - from
  {
    if from >= |s| then None else if s[from] == c then Some(from) else IndexOf(s, c, from + 1)
  }

  /** `std::string::find_first_of` with one character. */
  method FindFirstOf(s: ByteArray, c: Byte, from: nat) returns (pos: Option<nat>)
    ensures pos == IndexOf(s, c, from)
  {
    var i: nat := from;
    while i < |s|
      invariant IndexOf(s, c, i) == IndexOf(s, c, from)
    {
      if s[i] == c {
        return Some(i);
      }
      i := i + 1;
    }
    pos := None;
  }

  // ---------------------------------------------------------------------------
  // Splitting
  // ---------------------------------------------------------------------------

  /** Length of the longest prefix without a slash. */
  function Run(s: ByteArray): (n: nat)
    ensures n <= |s|
    ensures forall i :: 0 <= i < n ==> s[i] != SLASH
    ensures n < |s| ==> s[n] == SLASH
  {
    if s == [] || s[0] == SLASH then 0 else 1 + Run(s[1..])
  }

  /** The maximal non-empty runs of `s` between slashes. */
  function Segments(s: ByteArray): (segs: seq<ByteArray>)
    ensures forall seg :: seg in segs ==> IsSegment(seg)
    decreases |s|
  {
    if s == [] then []
    else if s[0] == SLASH then Segments(s[1..])
    else [s[..Run(s)]] + Segments(s[Run(s)..])
  }

  predicate IsSegment(seg: ByteArray) {
    seg != [] && SLASH !in seg
  }

  function Split(path: ByteArray): seq<ByteArray> {
    if Segments(path) == [] then [[SLASH]] else Segments(path)
  }

  /** The segments from `begin` on, when the next slash is at `pos`. */
  lemma SegmentsFrom(s: ByteArray, begin: nat, pos: nat)
    requires begin <= pos < |s| && s[pos] == SLASH
    requires forall i :: begin <= i < pos ==> s[i] != SLASH
    ensures Segments(s[begin..]) == (if pos > begin then [s[begin..pos]] else []) + Segments(s[pos + 1..])
  {
    var t, k := s[begin..], pos - begin;
    assert Run(t) == k && t[..k] == s[begin..pos];
    assert t[k..][1..] == s[pos + 1..];
  }

  lemma LastSegment(t: ByteArray)
    requires SLASH !in t
    ensures Segments(t) == if t == [] then [] else [t]
  {
    if t != [] {
      assert Run(t) == |t| && t[..|t|] == t;
      assert Segments(t) == [t] + Segments([]);
    }
  }

  /** `Message::SplitUriPath`. */
  method SplitUriPath(uri: ByteArray) returns (list: seq<ByteArray>)
    ensures list == Split(uri)
  {
    hide Segments, IndexOf;
    list := [];
    var begin: nat := 0;
    assert uri[0..] == uri;
    while true
      invariant begin <= |uri|
      invariant list + Segments(uri[begin..]) == Segments(uri)
      decreases |uri| - begin
    {
      var pos := FindFirstOf(uri, SLASH, begin);
      if pos.None? {
        break;
      }
      SegmentsFrom(uri, begin, pos.value);
      if pos.value > begin {
        list := list + [uri[begin..pos.value]];
      }
      begin := pos.value + 1;
    }
    LastSegment(uri[begin..]);
    if begin < |uri| {
      list := list + [uri[begin..]];
    }
    if list == [] {
      list := [[SLASH]];
    }
  }

  // ---------------------------------------------------------------------------
  // Normalising
  // ---------------------------------------------------------------------------

  function Leading(s: ByteArray): (n: nat)
    ensures n <= |s|
  {
    if s == [] || !IsSpace(s[0]) then 0 else 1 + Leading(s[1..])
  }

  /** Where the trailing spaces of `s` begin. */
  function End(s: ByteArray): (n: nat)
    ensures n <= |s|
    ensures n > 0 ==> !IsSpace(s[n - 1])
  {
    if s == [] || !IsSpace(s[|s| - 1]) then |s| else End(s[..|s| - 1])
  }

  lemma {:induction false} LeadingProps(s: ByteArray)
    ensures forall i :: 0 <= i < Leading(s) ==> IsSpace(s[i])
    ensures Leading(s) < |s| ==> !IsSpace(s[Leading(s)])
  {
    if s != [] && IsSpace(s[0]) {
      LeadingProps(s[1..]);
      assert forall i :: 0 < i < |s| ==> s[i] == s[1..][i - 1];
    }
  }

  lemma {:induction false} EndProps(s: ByteArray)
    ensures forall i :: End(s) <= i < |s| ==> IsSpace(s[i])
  {
    if s != [] && IsSpace(s[|s| - 1]) {
      EndProps(s[..|s| - 1]);
      assert forall i :: 0 <= i < |s| - 1 ==> s[i] == s[..|s| - 1][i];
    }
  }

  lemma LeadingBeforeEnd(s: ByteArray)
    ensures Leading(s) < |s| ==> Leading(s) < End(s)
  {
    LeadingProps(s);
    EndProps(s);
  }

  function Trim(s: ByteArray): ByteArray {
    LeadingBeforeEnd(s);
    if Leading(s) == |s| then [] else s[Leading(s)..End(s)]
  }

  function Absolute(s: ByteArray): (t: ByteArray)
    ensures t != [] && t[0] == SLASH
  {
    if s == [] || s[0] != SLASH then [SLASH] + s else s
  }

  function PercentDecode(s: ByteArray, from: nat): Outcome<ByteArray>
    decreases |s| - from
  {
    var at := IndexOf(s, PERCENT, from);
    if at.None? then Ok(s) else
    var pos := at.value;
    if pos + 2 >= |s| then Err(InvalidArgs)
    else if !IsXDigit(s[pos + 1]) || !IsXDigit(s[pos + 2]) then Err(InvalidArgs)
    else PercentDecode(Replace(s, pos), pos + 1)
  }

  function Replace(s: ByteArray, pos: nat): ByteArray
    requires pos + 2 < |s| && IsXDigit(s[pos + 1]) && IsXDigit(s[pos + 2])
  {
    s[..pos] + [16 * XDigit(s[pos + 1]) + XDigit(s[pos + 2])] + s[pos + 3..]
  }

  /** Percent-decoding starts at the index where the leading spaces of the input ended. */
  function Normalize(s: ByteArray): Outcome<ByteArray> {
    PercentDecode(Absolute(Trim(s)), Leading(s))
  }

  lemma LeadingFrom(s: ByteArray, k: nat)
    requires k <= |s|
    ensures Leading(s[k..]) == if k < |s| && IsSpace(s[k]) then 1 + Leading(s[k + 1..]) else 0
  {
    assert k < |s| ==> s[k..][1..] == s[k + 1..];
  }

  lemma EndUpTo(s: ByteArray, k: nat)
    requires k <= |s|
    ensures End(s[..k]) == if k > 0 && IsSpace(s[k - 1]) then End(s[..k - 1]) else k
  {
    assert k > 0 ==> s[..k][..k - 1] == s[..k - 1];
  }

  /** The first half of `NormalizeUriPath`: the trimmed path and the number of leading spaces. */
  method StripSpaces(uriPath: ByteArray) returns (s: ByteArray, begin: nat)
    ensures s == Trim(uriPath) && begin == Leading(uriPath)
  {
    hide Leading, End, IsSpace;
    begin := 0;
    var end: nat := |uriPath|;
    assert uriPath[0..] == uriPath && uriPath[..end] == uriPath;
    while begin < |uriPath| && IsSpace(uriPath[begin])
      invariant begin <= |uriPath| && Leading(uriPath) == begin + Leading(uriPath[begin..])
    {
      LeadingFrom(uriPath, begin);
      begin := begin + 1;
    }
    LeadingFrom(uriPath, begin);
    while end >= 1 && IsSpace(uriPath[end - 1])
      invariant end <= |uriPath| && End(uriPath) == End(uriPath[..end])
    {
      EndUpTo(uriPath, end);
      end := end - 1;
    }
    EndUpTo(uriPath, end);
    LeadingBeforeEnd(uriPath);
    s := if begin == |uriPath| then [] else uriPath[begin..end];
  }

  /** `Message::NormalizeUriPath`. */
  method NormalizeUriPath(uriPath: ByteArray) returns (r: Outcome<ByteArray>)
    ensures r == Normalize(uriPath)
  {
    var s: ByteArray, begin: nat := StripSpaces(uriPath);
    if s == [] || s[0] != SLASH {
      s := [SLASH] + s;
    }
    ghost var goal := PercentDecode(s, begin);
    var found := FindFirstOf(s, PERCENT, begin);
    while found.Some?
      invariant found == IndexOf(s, PERCENT, begin)
      invariant PercentDecode(s, begin) == goal
      decreases |s| - begin
    {
      var pos := found.value;
      if pos + 2 >= |s| || !IsXDigit(s[pos + 1]) || !IsXDigit(s[pos + 2]) {
        return Err(InvalidArgs);
      }
      s := Replace(s, pos);
      begin := pos + 1;
      found := FindFirstOf(s, PERCENT, begin);
    }
    r := Ok(s);
  }

  // ---------------------------------------------------------------------------
  // Splitting and re-appending
  // ---------------------------------------------------------------------------

  /** What `AppendOption` makes of a path when it receives these segments in turn. */
  function AppendSegments(path: ByteArray, segs: seq<ByteArray>): Outcome<ByteArray>
    decreases |segs|
  {
    if segs == [] then Ok(path)
    else
      var seg :- Normalize(segs[0]);
      AppendSegments(path + seg, segs[1..])
  }

  /** The path a receiver ends up with when `path` is sent segment by segment. */
  function Rejoin(path: ByteArray): Outcome<ByteArray> {
    AppendSegments([], Split(path))
  }

  /** A percent-free segment with no space at either end. */
  predicate Clean(seg: ByteArray) {
    IsSegment(seg) && PERCENT !in seg && !IsSpace(seg[0]) && !IsSpace(seg[|seg| - 1])
  }

  /** No percent sign, no empty segment, no space at either end of a segment. */
  predicate Tidy(path: ByteArray) {
    && path != [] && path[0] == SLASH && path[|path| - 1] != SLASH && !IsSpace(path[|path| - 1])
    && PERCENT !in path
    && (forall i :: 0 < i < |path| && path[i - 1] == SLASH ==> path[i] != SLASH && !IsSpace(path[i]))
    && (forall i :: 0 < i < |path| && path[i] == SLASH ==> !IsSpace(path[i - 1]))
  }

  predicate Canonical(path: ByteArray) {
    path == [SLASH] || Tidy(path)
  }

  function Joined(segs: seq<ByteArray>): ByteArray {
    if segs == [] then [] else [SLASH] + segs[0] + Joined(segs[1..])
  }

  lemma {:induction false} DecodeShrinks(s: ByteArray, from: nat)
    requires s != [] && s[0] == SLASH
    requires PercentDecode(s, from).Ok?
    ensures var r := PercentDecode(s, from).value;
            && r != [] && r[0] == SLASH && |r| <= |s|
            && (|r| == |s| ==> r == s && forall i :: from <= i < |s| ==> s[i] != PERCENT)
    decreases |s| - from
  {
    var at := IndexOf(s, PERCENT, from);
    if at.Some? {
      DecodeShrinks(Replace(s, at.value), at.value + 1);
    }
  }

  /** A clean segment comes back behind a slash; any other shrinks or is refused. */
  lemma NormalizeSegment(seg: ByteArray)
    requires IsSegment(seg)
    ensures Clean(seg) ==> Normalize(seg) == Ok([SLASH] + seg)
    ensures !Clean(seg) && Normalize(seg).Ok? ==> |Normalize(seg).value| <= |seg|
  {
    LeadingProps(seg);
    EndProps(seg);
    if Clean(seg) {
      assert Trim(seg) == seg;
      assert forall i :: 0 <= i < |[SLASH] + seg| ==> ([SLASH] + seg)[i] != PERCENT;
      assert IndexOf([SLASH] + seg, PERCENT, 0).None?;
    } else if Normalize(seg).Ok? {
      var t := Absolute(Trim(seg));
      DecodeShrinks(t, Leading(seg));
      assert |t| > |seg| ==> t == [SLASH] + seg;
      assert forall i :: 0 <= i < |seg| ==> ([SLASH] + seg)[i + 1] == seg[i];
    }
  }

  lemma {:induction false} AppendClean(path: ByteArray, segs: seq<ByteArray>)
    requires forall seg :: seg in segs ==> Clean(seg)
    ensures AppendSegments(path, segs) == Ok(path + Joined(segs))
    decreases |segs|
  {
    if segs != [] {
      assert segs[0] in segs;
      NormalizeSegment(segs[0]);
      AppendClean(path + ([SLASH] + segs[0]), segs[1..]);
      assert path + ([SLASH] + segs[0]) + Joined(segs[1..]) == path + Joined(segs);
    } else {
      assert path + [] == path;
    }
  }

  lemma {:induction false} AppendShrinks(path: ByteArray, segs: seq<ByteArray>)
    requires forall seg :: seg in segs ==> IsSegment(seg)
    requires AppendSegments(path, segs).Ok?
    ensures |AppendSegments(path, segs).value| <= |path| + |Joined(segs)|
    ensures |AppendSegments(path, segs).value| == |path| + |Joined(segs)| ==> forall seg :: seg in segs ==> Clean(seg)
    decreases |segs|
  {
    if segs == [] {
    } else {
      NormalizeSegment(segs[0]);
      AppendShrinks(path + Normalize(segs[0]).value, segs[1..]);
    }
  }

  /** Joining the segments of an absolute path never makes it longer. */
  lemma {:induction false} JoinedBound(s: ByteArray)
    requires s == [] || s[0] == SLASH
    ensures |Joined(Segments(s))| <= |s|
    ensures |Joined(Segments(s))| == |s| ==> Joined(Segments(s)) == s
    decreases |s|
  {
    if s == [] {
    } else {
      var t := s[1..];
      var k := Run(t);
      if k == 0 {
        JoinedBound(t);
      } else {
        JoinedBound(t[k..]);
        assert Segments(s) == [t[..k]] + Segments(t[k..]);
        assert s == [SLASH] + t[..k] + t[k..];
      }
    }
  }

  lemma {:induction false} TidyIsJoined(s: ByteArray)
    requires s == [] || Tidy(s)
    ensures Joined(Segments(s)) == s
    ensures forall seg :: seg in Segments(s) ==> Clean(seg)
    ensures s != [] ==> Segments(s) != []
    decreases |s|
  {
    if s == [] {
    } else {
      var t := s[1..];
      var k := Run(t);
      assert |t| > 0 && k > 0 by {
        assert s[1 - 1] == SLASH;
      }
      var seg, rest := t[..k], t[k..];
      assert Segments(s) == [seg] + Segments(rest);
      assert s == [SLASH] + seg + rest;
      FirstSegmentOfTidy(s, k);
      TidyIsJoined(rest);
    }
  }

  lemma FirstSegmentOfTidy(s: ByteArray, k: nat)
    requires Tidy(s) && 1 <= k < |s|
    requires forall i :: 1 <= i <= k ==> s[i] != SLASH
    requires k + 1 < |s| ==> s[k + 1] == SLASH
    ensures Clean(s[1..k + 1])
    ensures s[k + 1..] == [] || Tidy(s[k + 1..])
  {
    var seg, rest := s[1..k + 1], s[k + 1..];
    assert s[1 - 1] == SLASH && seg[0] == s[1] && seg[k - 1] == s[k];
    assert forall i :: 0 <= i < |rest| ==> rest[i] == s[i + k + 1];
    assert rest != [] ==> rest[|rest| - 1] == s[|s| - 1];
  }

  lemma {:induction false} JoinedIsTidy(segs: seq<ByteArray>)
    requires segs != [] && forall seg :: seg in segs ==> Clean(seg)
    ensures Tidy(Joined(segs))
  {
    var seg, rest := segs[0], Joined(segs[1..]);
    if |segs| > 1 {
      JoinedIsTidy(segs[1..]);
    } else {
      assert segs[1..] == [];
    }
    PrependTidy(seg, rest);
  }

  lemma PrependTidy(seg: ByteArray, rest: ByteArray)
    requires Clean(seg) && (rest == [] || Tidy(rest))
    ensures Tidy([SLASH] + seg + rest)
  {
    var s := [SLASH] + seg + rest;
    assert s[|s| - 1] == if rest == [] then seg[|seg| - 1] else rest[|rest| - 1];
    forall i | 0 < i < |s|
      ensures s[i - 1] == SLASH ==> s[i] != SLASH && !IsSpace(s[i])
      ensures s[i] == SLASH ==> !IsSpace(s[i - 1])
    {
      if i > |seg| + 1 {
        var j := i - 1 - |seg|;
        assert s[i] == rest[j] && s[i - 1] == rest[j - 1];
      } else if i > 1 {
        assert s[i - 1] == seg[i - 2];
      }
    }
  }

  /**
   Sending a path segment by segment and appending the segments on arrival gives the
   path back exactly when it is canonical.
   */
  lemma RejoinIsIdentityIffCanonical(path: ByteArray)
    ensures Rejoin(path) == Ok(path) <==> Canonical(path)
  {
    var segs := Segments(path);
    if segs == [] {
      RejoinRoot();
      if Tidy(path) {
        TidyIsJoined(path);
      }
    } else if Canonical(path) {
      assert Segments([SLASH]) == Segments([]);
      TidyIsJoined(path);
      AppendClean([], segs);
      assert [] + Joined(segs) == path;
    } else if Rejoin(path) == Ok(path) {
      RejoinIsAbsolute([], segs);
      AppendShrinks([], segs);
      JoinedBound(path);
      JoinedIsTidy(segs);
    }
  }

  lemma RejoinRoot()
    ensures AppendSegments([], [[SLASH]]) == Ok([SLASH])
  {
    var root: ByteArray := [SLASH];
    assert Trim(root) == root;
    assert IndexOf(root, PERCENT, 0).None?;
    assert Normalize(root) == Ok(root);
    assert [] + root == root;
    assert [root][1..] == [];
  }

  lemma {:induction false} RejoinIsAbsolute(path: ByteArray, segs: seq<ByteArray>)
    requires AppendSegments(path, segs).Ok?
    requires path == [] ==> segs != []
    requires path != [] ==> path[0] == SLASH
    ensures var r := AppendSegments(path, segs).value; r != [] && r[0] == SLASH
    decreases |segs|
  {
    if segs == [] {
    } else {
      DecodeShrinks(Absolute(Trim(segs[0])), Leading(segs[0]));
      RejoinIsAbsolute(path + Normalize(segs[0]).value, segs[1..]);
    }
  }

  /** A path that ends with a slash is not given back, unless it is that slash alone. */
  lemma TrailingSlashIsLost(path: ByteArray)
    requires path != [] && path[|path| - 1] == SLASH
    ensures Rejoin(path) == Ok(path) <==> |path| == 1
  {
    RejoinIsIdentityIffCanonical(path);
  }
}
