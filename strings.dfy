/**
 * The string utilities of the gallery: the search-term normaliser and the
 * breed-name extractor, together with the JavaScript string primitives they
 * are built from (`includes`, `split`, `join`, `toLowerCase`, `trim`).
 *
 * Character model: the input of `normalizeString` is taken to be already in
 * canonical decomposition (NFD), so an accent is a separate combining mark in
 * U+0300..U+036F; lower-casing is modelled on ASCII letters only.
 */
module Strings {
  import opened Base

  /** The display separator between a breed and its sub-breed. */
  const BreedSubBreedSeparator: string := " - "

  // ---------------------------------------------------------------------------
  // Characters

  predicate IsCombiningMark(c: char) { '\U{0300}' <= c <= '\U{036F}' }

  predicate IsAsciiUpper(c: char) { 'A' <= c <= 'Z' }

  /** The characters that `String.prototype.trim` removes: white space and line terminators. */
  predicate IsWhitespace(c: char)
  {
    c == '\t' || c == '\n' || c == '\U{000B}' || c == '\U{000C}' || c == '\r' || c == ' '
    || c == '\U{00A0}' || c == '\U{1680}' || ('\U{2000}' <= c <= '\U{200A}')
    || c == '\U{2028}' || c == '\U{2029}' || c == '\U{202F}' || c == '\U{205F}'
    || c == '\U{3000}' || c == '\U{FEFF}'
  }

  function LowerChar(c: char): (r: char)
    ensures !IsAsciiUpper(r)
    ensures IsCombiningMark(r) <==> IsCombiningMark(c)
    ensures IsWhitespace(r) <==> IsWhitespace(c)
    ensures !IsAsciiUpper(c) ==> r == c
  {
    if IsAsciiUpper(c) then (c as int - 'A' as int + 'a' as int) as char else c
  }

  // ---------------------------------------------------------------------------
  // normalizeString

  /** `toLowerCase`, on the ASCII letters. */
  function Lower(s: string): string
  {
    seq(|s|, i requires 0 <= i < |s| => LowerChar(s[i]))
  }

  /** `replace(/[̀-ͯ]/g, '')`. */
  function StripMarks(s: string): string
  {
    Filter(s, (c: char) => !IsCombiningMark(c))
  }

  /** The number of white-space characters at the start of `s`. */
  function Leading(s: string): (k: nat)
    ensures k <= |s|
    ensures forall i :: 0 <= i < k ==> IsWhitespace(s[i])
    ensures k == |s| || !IsWhitespace(s[k])
  {
    if s != [] && IsWhitespace(s[0]) then 1 + Leading(s[1..]) else 0
  }

  /** The number of white-space characters at the end of `s`. */
  function Trailing(s: string): (k: nat)
    ensures k <= |s|
    ensures forall i :: |s| - k <= i < |s| ==> IsWhitespace(s[i])
    ensures k == |s| || !IsWhitespace(s[|s| - k - 1])
  {
    if s != [] && IsWhitespace(s[|s| - 1]) then 1 + Trailing(s[..|s| - 1]) else 0
  }

  /** `trim`: the slice of `s` between its leading and its trailing white space. */
  function Trim(s: string): (r: string)
    ensures r == [] || (!IsWhitespace(r[0]) && !IsWhitespace(r[|r| - 1]))
    ensures exists i, j :: 0 <= i <= j <= |s| && r == s[i..j]
                           && (forall k :: 0 <= k < i ==> IsWhitespace(s[k]))
                           && (forall k :: j <= k < |s| ==> IsWhitespace(s[k]))
  {
    var i := Leading(s);
    var j := |s| - Trailing(s[i..]);
    assert s[i..][..j - i] == s[i..j];
    s[i..j]
  }

  /** `normalizeString`: strip accents, lower-case, trim. */
  function Normalize(s: string): string
  {
    Trim(Lower(StripMarks(s)))
  }

  /** A normalised string has no surrounding white space, no accents and no upper-case letters. */
  lemma NormalizeClean(s: string)
    ensures var r := Normalize(s);
      (r == [] || (!IsWhitespace(r[0]) && !IsWhitespace(r[|r| - 1])))
      && forall k :: 0 <= k < |r| ==> !IsCombiningMark(r[k]) && !IsAsciiUpper(r[k])
  {
    var l := Lower(StripMarks(s));
    LowerOfStripped(s);
    TrimKeepsChars(l);
  }

  /** After stripping and lower-casing, no character is a mark or an upper-case letter. */
  lemma LowerOfStripped(s: string)
    ensures forall c :: c in Lower(StripMarks(s)) ==> !IsCombiningMark(c) && !IsAsciiUpper(c)
  {
    var m := StripMarks(s);
    var l := Lower(m);
    forall c | c in l ensures !IsCombiningMark(c) && !IsAsciiUpper(c) {
      var k :| 0 <= k < |l| && l[k] == c;
      assert m[k] in m;
    }
  }

  /** Trimming only removes characters. */
  lemma TrimKeepsChars(s: string)
    ensures forall k :: 0 <= k < |Trim(s)| ==> Trim(s)[k] in s
  {
    var r := Trim(s);
    var i, j :| 0 <= i <= j <= |s| && r == s[i..j];
    forall k | 0 <= k < |r| ensures r[k] in s {
      assert r[k] == s[i + k];
    }
  }

  /** Stripping marks and lower-casing commute, because lower-casing keeps marks marks. */
  lemma {:induction false} StripMarksLower(s: string)
    ensures StripMarks(Lower(s)) == Lower(StripMarks(s))
  {
    if s != [] {
      StripMarksLower(s[1..]);
      assert Lower(s)[1..] == Lower(s[1..]);
      if !IsCombiningMark(s[0]) {
        assert Lower([s[0]] + StripMarks(s[1..])) == [LowerChar(s[0])] + Lower(StripMarks(s[1..]));
      }
    }
  }

  /** Normalisation ignores letter case: the search is case-insensitive. */
  lemma NormalizeIgnoresCase(s: string)
    ensures Normalize(Lower(s)) == Normalize(s)
  {
    StripMarksLower(s);
    var m := StripMarks(s);
    assert Lower(Lower(m)) == Lower(m);
  }

  /** A string that is already clean normalises to itself. */
  lemma NormalizeCleanIsIdentity(s: string)
    requires forall k :: 0 <= k < |s| ==> !IsCombiningMark(s[k]) && !IsAsciiUpper(s[k])
    requires s == [] || (!IsWhitespace(s[0]) && !IsWhitespace(s[|s| - 1]))
    ensures Normalize(s) == s
  {
    FilterAll(s, (c: char) => !IsCombiningMark(c));
    assert Lower(s) == s;
    assert Leading(s) == 0;
    assert s[0..] == s;
    assert Trailing(s) == 0;
    assert s[0..|s|] == s;
  }

  // ---------------------------------------------------------------------------
  // includes, split, join

  /** `sub` occurs in `s` at position `i`. */
  predicate OccursAt(s: string, sub: string, i: nat)
  {
    i + |sub| <= |s| && s[i..i + |sub|] == sub
  }

  /** The first position at or after `from` where `sub` occurs (`indexOf`). */
  function IndexOf(s: string, sub: string, from: nat): (r: Option<nat>)
    decreases |s| - from
    ensures r.Some? ==> from <= r.value && OccursAt(s, sub, r.value)
                        && forall j: nat :: from <= j < r.value ==> !OccursAt(s, sub, j)
    ensures r.None? ==> forall j: nat :: from <= j ==> !OccursAt(s, sub, j)
  {
    if from + |sub| > |s| then None
    else if OccursAt(s, sub, from) then Some(from)
    else IndexOf(s, sub, from + 1)
  }

  /** `s.includes(sub)`. */
  function Contains(s: string, sub: string): (b: bool)
    ensures b <==> exists i: nat :: OccursAt(s, sub, i)
  {
    IndexOf(s, sub, 0).Some?
  }

  /** `s.split(sep)` for a non-empty separator: the pieces between left-to-right occurrences. */
  function Split(s: string, sep: string): (parts: seq<string>)
    requires |sep| > 0
    ensures |parts| >= 1
    decreases |s|
  {
    match IndexOf(s, sep, 0)
    case None => [s]
    case Some(i) => [s[..i]] + Split(s[i + |sep|..], sep)
  }

  /** `parts.join(sep)`. */
  function Join(parts: seq<string>, sep: string): string
  {
    if |parts| == 0 then ""
    else if |parts| == 1 then parts[0]
    else parts[0] + sep + Join(parts[1..], sep)
  }

  /** An occurrence starts with the first character of what occurs. */
  lemma OccursStart(s: string, sub: string)
    requires |sub| > 0
    ensures forall i: nat :: OccursAt(s, sub, i) ==> s[i] == sub[0]
  {
    forall i: nat | OccursAt(s, sub, i) ensures s[i] == sub[0] {
      assert s[i..i + |sub|][0] == s[i];
    }
  }

  /** A non-empty `sub` whose first character is missing from `s` does not occur in `s`. */
  lemma NotFound(s: string, sub: string)
    requires |sub| > 0 && sub[0] !in s
    ensures IndexOf(s, sub, 0) == None
  {
    OccursStart(s, sub);
  }

  /** No occurrence of `sep` can start inside a piece that lacks `sep`'s first character. */
  lemma FirstOccurrenceAfter(p: string, sep: string, rest: string)
    requires |sep| > 0 && sep[0] !in p
    ensures IndexOf(p + sep + rest, sep, 0) == Some(|p|)
  {
    var s := p + sep + rest;
    assert s[|p|..|p| + |sep|] == sep;
    assert OccursAt(s, sep, |p|);
    OccursStart(s, sep);
    assert forall j :: 0 <= j < |p| ==> s[j] == p[j];
  }

  /** Splitting undoes joining when no piece contains the separator's first character. */
  lemma {:induction false} SplitJoin(parts: seq<string>, sep: string)
    requires |sep| > 0 && |parts| >= 1
    requires forall k :: 0 <= k < |parts| ==> sep[0] !in parts[k]
    ensures Split(Join(parts, sep), sep) == parts
  {
    var p := parts[0];
    if |parts| == 1 {
      NotFound(p, sep);
    } else {
      var rest := Join(parts[1..], sep);
      FirstOccurrenceAfter(p, sep, rest);
      var s := p + sep + rest;
      assert s[..|p|] == p;
      assert s[|p| + |sep|..] == rest;
      SplitJoin(parts[1..], sep);
      assert parts == [p] + parts[1..];
    }
  }

  /** Every character of a piece of `Split(s, sep)` is a character of `s`. */
  lemma {:induction false} SplitChars(s: string, sep: string, k: nat, c: char)
    requires |sep| > 0 && k < |Split(s, sep)| && c in Split(s, sep)[k]
    ensures c in s
  {
    match IndexOf(s, sep, 0)
    case None =>
    case Some(i) =>
      if k == 0 {
        assert s[..i] == Split(s, sep)[0];
        assert c in s[..i];
      } else {
        SplitChars(s[i + |sep|..], sep, k - 1, c);
        assert c in s[i + |sep|..];
      }
  }

  /** A character of a joined string comes from the separator or from a piece. */
  lemma {:induction false} JoinChars(parts: seq<string>, sep: string, c: char)
    requires c in Join(parts, sep)
    ensures c in sep || exists k :: 0 <= k < |parts| && c in parts[k]
  {
    if |parts| > 1 {
      if c !in parts[0] && c !in sep {
        JoinChars(parts[1..], sep, c);
        var k :| 0 <= k < |parts[1..]| && c in parts[1..][k];
        assert c in parts[k + 1];
      }
    }
  }

  /** A string without the separator splits into itself alone. */
  lemma SplitWithoutSeparator(s: string, sep: string)
    requires |sep| > 0 && sep[0] !in s
    ensures Split(s, sep) == [s]
  {
    NotFound(s, sep);
  }

  // ---------------------------------------------------------------------------
  // getBreedNameFromSrc

  /** The literal part of the pattern `/\/breeds\/([^/]+)/`. */
  const BreedsMarker: string := "/breeds/"

  /** The pattern matches at `i`: the marker, then at least one character other than `/`. */
  predicate BreedMatchAt(src: string, i: nat)
  {
    i + |BreedsMarker| < |src| && src[i..i + |BreedsMarker|] == BreedsMarker
    && src[i + |BreedsMarker|] != '/'
  }

  /** The leftmost position at or after `from` where the pattern matches. */
  function FirstBreedMatch(src: string, from: nat): (r: Option<nat>)
    decreases |src| - from
    ensures r.Some? ==> from <= r.value && BreedMatchAt(src, r.value)
                        && forall j: nat :: from <= j < r.value ==> !BreedMatchAt(src, j)
    ensures r.None? ==> forall j: nat :: from <= j ==> !BreedMatchAt(src, j)
  {
    if from + |BreedsMarker| >= |src| then None
    else if BreedMatchAt(src, from) then Some(from)
    else FirstBreedMatch(src, from + 1)
  }

  /** Where the greedy `[^/]+` starting at `i` stops: the next `/` or the end. */
  function SegmentEnd(src: string, i: nat): (j: nat)
    requires i <= |src|
    decreases |src| - i
    ensures i <= j <= |src|
    ensures forall k :: i <= k < j ==> src[k] != '/'
    ensures j == |src| || src[j] == '/'
  {
    if i == |src| || src[i] == '/' then i else SegmentEnd(src, i + 1)
  }

  /** The captured group of the pattern, if it matches anywhere. */
  function BreedSegment(src: string): (r: Option<string>)
    ensures r.None? <==> forall j: nat :: !BreedMatchAt(src, j)
    ensures r.Some? ==> |r.value| > 0 && '/' !in r.value
  {
    match FirstBreedMatch(src, 0)
    case None => None
    case Some(i) =>
      var start := i + |BreedsMarker|;
      var seg := src[start..SegmentEnd(src, start)];
      assert seg[0] == src[start];
      Some(seg)
  }

  /** `getBreedNameFromSrc`: the captured segment with every `-` shown as the separator. */
  function GetBreedNameFromSrc(src: string): (r: Option<string>)
    ensures r.None? <==> forall j: nat :: !BreedMatchAt(src, j)
  {
    match BreedSegment(src)
    case None => None
    case Some(seg) => Some(Join(Split(seg, "-"), BreedSubBreedSeparator))
  }

  /** Reference reading of the rewrite: each `-` becomes the display separator. */
  function Expand(s: string): string
  {
    if s == [] then []
    else (if s[0] == '-' then BreedSubBreedSeparator else [s[0]]) + Expand(s[1..])
  }

  lemma {:induction false} ExpandAppend(a: string, b: string)
    ensures Expand(a + b) == Expand(a) + Expand(b)
  {
    if a != [] {
      assert (a + b)[0] == a[0];
      assert (a + b)[1..] == a[1..] + b;
      ExpandAppend(a[1..], b);
    } else {
      assert a + b == b;
    }
  }

  lemma {:induction false} ExpandWithoutDash(s: string)
    requires '-' !in s
    ensures Expand(s) == s
  {
    if s != [] {
      ExpandWithoutDash(s[1..]);
    }
  }

  /** Before the first occurrence of `-` there is no `-`. */
  lemma DashFreePrefix(s: string, i: nat)
    requires i <= |s|
    requires forall j: nat :: j < i ==> !OccursAt(s, "-", j)
    ensures '-' !in s[..i]
  {
    DashOccurs(s);
    assert forall k :: 0 <= k < i ==> s[..i][k] == s[k];
  }

  lemma DashOccurs(s: string)
    ensures forall k :: 0 <= k < |s| && s[k] == '-' ==> OccursAt(s, "-", k)
  {
    forall k | 0 <= k < |s| && s[k] == '-' ensures OccursAt(s, "-", k) {
      assert s[k..k + 1] == [s[k]];
    }
  }

  /** `split('-').join(' - ')` is exactly the character-wise rewrite `Expand`. */
  lemma {:induction false} SplitJoinIsExpand(s: string)
    ensures Join(Split(s, "-"), BreedSubBreedSeparator) == Expand(s)
    decreases |s|
  {
    match IndexOf(s, "-", 0)
    case None =>
      DashFreePrefix(s, |s|);
      assert s[..|s|] == s;
      ExpandWithoutDash(s);
    case Some(i) =>
      var head, tail := s[..i], s[i + 1..];
      DashFreePrefix(s, i);
      SplitJoinIsExpand(tail);
      ExpandDashSplit(s, i);
  }

  lemma ExpandDashSplit(s: string, i: nat)
    requires OccursAt(s, "-", i) && '-' !in s[..i]
    ensures Expand(s) == s[..i] + BreedSubBreedSeparator + Expand(s[i + 1..])
  {
    var head, tail := s[..i], s[i + 1..];
    OccursStart(s, "-");
    assert s == head + "-" + tail;
    ExpandAppend(head + "-", tail);
    ExpandAppend(head, "-");
    ExpandWithoutDash(head);
    assert Expand("-") == BreedSubBreedSeparator + Expand([]);
  }

  /** On a match, the name is the leftmost maximal segment with each `-` rewritten. */
  lemma BreedNameOfMatch(src: string, i: nat)
    requires BreedMatchAt(src, i)
    requires forall j: nat :: j < i ==> !BreedMatchAt(src, j)
    ensures var start := i + |BreedsMarker|;
      GetBreedNameFromSrc(src) == Some(Expand(src[start..SegmentEnd(src, start)]))
  {
    var r := FirstBreedMatch(src, 0);
    assert r == Some(i);
    SplitJoinIsExpand(src[i + |BreedsMarker|..SegmentEnd(src, i + |BreedsMarker|)]);
  }

  /** The name never contains `/`, and a segment without `-` comes back unchanged. */
  lemma BreedNameShape(src: string)
    requires BreedSegment(src).Some?
    ensures var seg := BreedSegment(src).value;
      var name := GetBreedNameFromSrc(src).value;
      '/' !in name && ('-' !in seg ==> name == seg)
  {
    var seg := BreedSegment(src).value;
    var name := GetBreedNameFromSrc(src).value;
    var parts := Split(seg, "-");
    forall k, c | 0 <= k < |parts| && c in parts[k] ensures c in seg {
      SplitChars(seg, "-", k, c);
    }
    forall c | c in name
      ensures c in BreedSubBreedSeparator || exists k :: 0 <= k < |parts| && c in parts[k]
    {
      JoinChars(parts, BreedSubBreedSeparator, c);
    }
    if '-' !in seg {
      SplitWithoutSeparator(seg, "-");
    }
  }

  /** Splitting the name on the separator recovers the segment's `-`-separated parts. */
  lemma BreedNameRoundTrip(src: string)
    requires BreedSegment(src).Some? && ' ' !in BreedSegment(src).value
    ensures Split(GetBreedNameFromSrc(src).value, BreedSubBreedSeparator)
            == Split(BreedSegment(src).value, "-")
  {
    var seg := BreedSegment(src).value;
    var parts := Split(seg, "-");
    forall k, c | 0 <= k < |parts| && c in parts[k] ensures c in seg {
      SplitChars(seg, "-", k, c);
    }
    SplitJoin(parts, BreedSubBreedSeparator);
  }

  /** A URL with no `/` cannot match. */
  lemma NoSlashNoName(src: string)
    requires '/' !in src
    ensures GetBreedNameFromSrc(src) == None
  {
    BreedMatchStart(src);
  }

  lemma BreedMatchStart(src: string)
    ensures forall j: nat :: BreedMatchAt(src, j) ==> src[j] == '/' && src[j + 1] == 'b'
  {
    forall j: nat | BreedMatchAt(src, j) ensures src[j] == '/' && src[j + 1] == 'b' {
      assert src[j..j + |BreedsMarker|][0] == src[j];
      assert src[j..j + |BreedsMarker|][1] == src[j + 1];
    }
  }

  /** No match can start before `i` when no `b` comes before `i + 1`. */
  lemma NoMatchBefore(src: string, i: nat)
    requires i < |src| && forall j :: 0 <= j <= i ==> src[j] != 'b'
    ensures forall j: nat :: j < i ==> !BreedMatchAt(src, j)
  {
    BreedMatchStart(src);
    forall j: nat | j < i ensures !BreedMatchAt(src, j) {
      assert src[j + 1] != 'b';
    }
  }

  /** The pattern matches at `i` and its group ends at `end`; nothing matches earlier. */
  lemma BreedNameAt(src: string, i: nat, end: nat)
    requires i + |BreedsMarker| < end <= |src|
    requires src[i..i + |BreedsMarker|] == BreedsMarker
    requires forall j :: 0 <= j <= i ==> src[j] != 'b'
    requires forall k :: i + |BreedsMarker| <= k < end ==> src[k] != '/'
    requires end == |src| || src[end] == '/'
    ensures GetBreedNameFromSrc(src) == Some(Expand(src[i + |BreedsMarker|..end]))
  {
    var start := i + |BreedsMarker|;
    NoMatchBefore(src, i);
    assert BreedMatchAt(src, i);
    assert SegmentEnd(src, end) == end;
    SegmentEndSkips(src, start, end);
    BreedNameOfMatch(src, i);
  }

  /** A host part free of `b`, then `/breeds/`, a segment, and a path: the name is the rewritten segment. */
  lemma BreedNameAfterHost(host: string, seg: string, rest: string)
    requires 'b' !in host && |seg| > 0 && '/' !in seg
    requires rest == [] || rest[0] == '/'
    ensures GetBreedNameFromSrc(host + BreedsMarker + seg + rest) == Some(Expand(seg))
  {
    BreedNameOfParts(host + BreedsMarker + seg + rest, host, seg, rest);
  }

  lemma BreedNameOfParts(src: string, host: string, seg: string, rest: string)
    requires src == host + BreedsMarker + seg + rest
    requires 'b' !in host && |seg| > 0 && '/' !in seg
    requires rest == [] || rest[0] == '/'
    ensures GetBreedNameFromSrc(src) == Some(Expand(seg))
  {
    var start := |host| + |BreedsMarker|;
    var end := start + |seg|;
    SliceFacts(src, host, seg, rest);
    BreedNameAt(src, |host|, end);
  }

  lemma SliceFacts(src: string, host: string, seg: string, rest: string)
    requires src == host + BreedsMarker + seg + rest
    requires 'b' !in host && '/' !in seg
    requires rest == [] || rest[0] == '/'
    ensures |host| + |BreedsMarker| + |seg| <= |src|
    ensures src[|host|..|host| + |BreedsMarker|] == BreedsMarker
    ensures src[|host| + |BreedsMarker|..|host| + |BreedsMarker| + |seg|] == seg
    ensures forall j :: 0 <= j <= |host| ==> src[j] != 'b'
    ensures forall k :: |host| + |BreedsMarker| <= k < |host| + |BreedsMarker| + |seg| ==> src[k] != '/'
    ensures |host| + |BreedsMarker| + |seg| == |src| || src[|host| + |BreedsMarker| + |seg|] == '/'
  {
    var start := |host| + |BreedsMarker|;
    var end := start + |seg|;
    assert forall j :: 0 <= j < |host| ==> src[j] == host[j];
    assert src[|host|] == '/';
    assert forall k :: start <= k < end ==> src[k] == seg[k - start];
    assert end < |src| ==> src[end] == rest[0];
    assert src[|host|..start] == BreedsMarker;
    assert src[start..end] == seg;
  }

  lemma {:induction false} SegmentEndSkips(src: string, i: nat, j: nat)
    requires i <= j <= |src|
    requires forall k :: i <= k < j ==> src[k] != '/'
    ensures SegmentEnd(src, i) == SegmentEnd(src, j)
    decreases j - i
  {
    if i < j {
      SegmentEndSkips(src, i + 1, j);
    }
  }

  /** The example image URL of the tests gives `retriever - golden`. */
  lemma BreedNameExample(src: string)
    requires src == "https://images.dog.ceo/breeds/retriever-golden/random-name-123.jpg"
    ensures GetBreedNameFromSrc(src) == Some("retriever - golden")
  {
    var host, seg, rest := "https://images.dog.ceo", "retriever-golden", "/random-name-123.jpg";
    ExampleUrlParts(src, host, seg, rest);
    ExamplePartsShape(host, seg, rest);
    BreedNameAfterHost(host, seg, rest);
    ExpandExample(seg, "retriever", "golden");
  }

  lemma ExampleUrlParts(src: string, host: string, seg: string, rest: string)
    requires src == "https://images.dog.ceo/breeds/retriever-golden/random-name-123.jpg"
    requires host == "https://images.dog.ceo" && seg == "retriever-golden" && rest == "/random-name-123.jpg"
    ensures src == host + BreedsMarker + seg + rest
  {
    var a := "https://images.dog.ceo/breeds/";
    var b := "https://images.dog.ceo/breeds/retriever-golden";
    ExampleHostPart(host, a);
    ExampleSegmentPart(a, seg, b);
    ExampleRestPart(b, rest, src);
  }

  lemma ExampleHostPart(host: string, a: string)
    requires host == "https://images.dog.ceo" && a == "https://images.dog.ceo/breeds/"
    ensures host + BreedsMarker == a
  {
  }

  lemma ExampleSegmentPart(a: string, seg: string, b: string)
    requires a == "https://images.dog.ceo/breeds/" && seg == "retriever-golden"
    requires b == "https://images.dog.ceo/breeds/retriever-golden"
    ensures a + seg == b
  {
  }

  lemma ExampleRestPart(b: string, rest: string, src: string)
    requires b == "https://images.dog.ceo/breeds/retriever-golden" && rest == "/random-name-123.jpg"
    requires src == "https://images.dog.ceo/breeds/retriever-golden/random-name-123.jpg"
    ensures b + rest == src
  {
  }

  lemma ExamplePartsShape(host: string, seg: string, rest: string)
    requires host == "https://images.dog.ceo" && seg == "retriever-golden" && rest == "/random-name-123.jpg"
    ensures 'b' !in host && '/' !in seg && |seg| > 0 && rest[0] == '/'
  {
  }

  lemma ExpandExample(seg: string, a: string, b: string)
    requires seg == "retriever-golden" && a == "retriever" && b == "golden"
    ensures Expand(seg) == "retriever - golden"
  {
    ExpandLiteralPieces(seg, a, b);
    ExpandAppend(a + "-", b);
    ExpandAppend(a, "-");
    ExpandWithoutDash(a);
    ExpandWithoutDash(b);
    assert Expand("-") == BreedSubBreedSeparator + Expand([]);
    JoinLiteralPieces(a, b);
  }

  lemma ExpandLiteralPieces(seg: string, a: string, b: string)
    requires seg == "retriever-golden" && a == "retriever" && b == "golden"
    ensures seg == a + "-" + b && '-' !in a && '-' !in b
  {
  }

  lemma JoinLiteralPieces(a: string, b: string)
    requires a == "retriever" && b == "golden"
    ensures a + BreedSubBreedSeparator + b == "retriever - golden"
  {
  }

  /** A string that is not a URL at all gives no name. */
  lemma InvalidUrlExample()
    ensures GetBreedNameFromSrc("invalid-url") == None
  {
    NoSlashNoName("invalid-url");
  }
}
