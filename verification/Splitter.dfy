/** Splitting a long message into pieces a chat channel accepts. Text is bytes here, because the
    splitter cuts at byte offsets. */
module Splitter {
  import opened Basics
  import Text

  const NEWLINE: Byte := 10

  // ------------------------------------------------------------------ trimming

  predicate SpaceOfThree(a: Byte, b: Byte, c: Byte) {
    || (a == 0xe1 && b == 0x9a && c == 0x80)
    || (a == 0xe2 && b == 0x80 && (0x80 <= c <= 0x8a || c == 0xa8 || c == 0xa9 || c == 0xaf))
    || (a == 0xe2 && b == 0x81 && c == 0x9f)
    || (a == 0xe3 && b == 0x80 && c == 0x80)
  }

  predicate SpaceOfOne(a: Byte) { 9 <= a <= 13 || a == 32 }

  predicate SpaceOfTwo(a: Byte, b: Byte) { a == 0xc2 && (b == 0x85 || b == 0xa0) }

  /** Length of the UTF-8 encoded white space at the front, or zero. */
  function LeadingSpace(s: Bytes): (n: nat)
    ensures n <= |s|
  {
    if |s| >= 1 && SpaceOfOne(s[0]) then 1
    else if |s| >= 2 && SpaceOfTwo(s[0], s[1]) then 2
    else if |s| >= 3 && SpaceOfThree(s[0], s[1], s[2]) then 3
    else 0
  }

  /** Length of the UTF-8 encoded white space at the back, or zero. */
  function TrailingSpace(s: Bytes): (n: nat)
    ensures n <= |s|
  {
    if |s| >= 1 && SpaceOfOne(s[|s| - 1]) then 1
    else if |s| >= 2 && SpaceOfTwo(s[|s| - 2], s[|s| - 1]) then 2
    else if |s| >= 3 && SpaceOfThree(s[|s| - 3], s[|s| - 2], s[|s| - 1]) then 3
    else 0
  }

  function TrimFront(s: Bytes): Bytes {
    if LeadingSpace(s) > 0 then TrimFront(s[LeadingSpace(s)..]) else s
  }

  function TrimBack(s: Bytes): (r: Bytes)
    ensures r <= s && TrailingSpace(r) == 0
  {
    if TrailingSpace(s) > 0 then TrimBack(s[..|s| - TrailingSpace(s)]) else s
  }

  /** strings.TrimSpace */
  function Trimmed(s: Bytes): (r: Bytes)
    ensures r != [] ==> r[|r| - 1] != NEWLINE
  {
    TrimBack(TrimFront(s))
  }

  /** The UTF-8 form of a rune. */
  function Utf8(c: char): Bytes {
    var n := c as int;
    if n < 0x80 then [n as Byte]
    else if n < 0x800 then [(0xc0 + n / 64) as Byte, (0x80 + n % 64) as Byte]
    else if n < 0x1_0000 then [(0xe0 + n / 4096) as Byte, (0x80 + n / 64 % 64) as Byte, (0x80 + n % 64) as Byte]
    else [(0xf0 + n / 262144) as Byte, (0x80 + n / 4096 % 64) as Byte, (0x80 + n / 64 % 64) as Byte, (0x80 + n % 64) as Byte]
  }

  /** The UTF-8 form of a string. */
  function Encoded(runes: string): Bytes {
    if runes == "" then [] else Utf8(runes[0]) + Encoded(runes[1..])
  }

  lemma Regroup(a: Bytes, b: Bytes, c: Bytes)
    ensures a + (b + c) == a + b + c
  {}

  lemma EncodedCons(c: char, runes: string)
    ensures Encoded([c] + runes) == Utf8(c) + Encoded(runes)
  {
    hide Utf8;
    assert ([c] + runes)[1..] == runes;
  }

  lemma {:induction false} EncodedSnoc(runes: string, c: char)
    ensures Encoded("") == []
    ensures Encoded(runes + [c]) == Encoded(runes) + Utf8(c)
  {
    hide Utf8;
    if runes == "" {
      assert Encoded([c]) == Utf8(c) + Encoded("");
    } else {
      var all := runes + [c];
      EncodedSnoc(runes[1..], c);
      assert all[1..] == runes[1..] + [c];
      assert Encoded(all) == Utf8(runes[0]) + Encoded(all[1..]);
    }
  }

  /** The bytes the trimmer looks for are those of the white space runes. */
  lemma SpacesAreRunes(c: char)
    requires Text.IsSpace(c)
    ensures var b := Utf8(c);
      || (|b| == 1 && SpaceOfOne(b[0]))
      || (|b| == 2 && SpaceOfTwo(b[0], b[1]))
      || (|b| == 3 && SpaceOfThree(b[0], b[1], b[2]))
  {}

  lemma RuneOfOne(a: Byte) returns (c: char)
    requires SpaceOfOne(a)
    ensures Text.IsSpace(c) && Utf8(c) == [a]
  {
    c := a as char;
  }

  lemma RuneOfTwo(a: Byte, b: Byte) returns (c: char)
    requires SpaceOfTwo(a, b)
    ensures Text.IsSpace(c) && Utf8(c) == [a, b]
  {
    c := b as char;
  }

  lemma RuneOfThree(a: Byte, b: Byte, d: Byte) returns (c: char)
    requires SpaceOfThree(a, b, d)
    ensures Text.IsSpace(c) && Utf8(c) == [a, b, d]
  {
    var n := ((a as int) - 0xe0) * 4096 + ((b as int) - 0x80) * 64 + (d as int) - 0x80;
    c := n as char;
  }

  lemma LeadingRune(s: Bytes) returns (c: char)
    requires LeadingSpace(s) > 0
    ensures Text.IsSpace(c) && Utf8(c) == s[..LeadingSpace(s)]
  {
    hide Utf8, Text.IsSpace, SpaceOfOne, SpaceOfTwo, SpaceOfThree;
    if SpaceOfOne(s[0]) {
      c := RuneOfOne(s[0]);
    } else if |s| >= 2 && SpaceOfTwo(s[0], s[1]) {
      c := RuneOfTwo(s[0], s[1]);
    } else {
      c := RuneOfThree(s[0], s[1], s[2]);
    }
  }

  lemma TrailingRune(s: Bytes) returns (c: char)
    requires TrailingSpace(s) > 0
    ensures Text.IsSpace(c) && Utf8(c) == s[|s| - TrailingSpace(s)..]
  {
    hide Utf8, Text.IsSpace, SpaceOfOne, SpaceOfTwo, SpaceOfThree;
    var n := |s|;
    if SpaceOfOne(s[n - 1]) {
      c := RuneOfOne(s[n - 1]);
    } else if n >= 2 && SpaceOfTwo(s[n - 2], s[n - 1]) {
      c := RuneOfTwo(s[n - 2], s[n - 1]);
    } else {
      c := RuneOfThree(s[n - 3], s[n - 2], s[n - 1]);
    }
  }

  ghost predicate AreSpaces(runes: string) {
    forall i :: 0 <= i < |runes| ==> Text.IsSpace(runes[i])
  }

  lemma {:induction false} TrimFrontDropsSpaces(s: Bytes) returns (before: string)
    ensures AreSpaces(before) && s == Encoded(before) + TrimFront(s)
    ensures LeadingSpace(TrimFront(s)) == 0
    decreases |s|
  {
    hide LeadingSpace, Utf8, Encoded, Text.IsSpace;
    var n := LeadingSpace(s);
    if n == 0 {
      EncodedSnoc("", ' ');
      return "";
    }
    var c := LeadingRune(s);
    var others := TrimFrontDropsSpaces(s[n..]);
    before := [c] + others;
    assert TrimFront(s) == TrimFront(s[n..]);
    hide TrimFront;
    EncodedCons(c, others);
    Regroup(s[..n], Encoded(others), TrimFront(s));
    assert s == s[..n] + s[n..];
  }

  lemma {:induction false} TrimBackDropsSpaces(s: Bytes) returns (after: string)
    ensures AreSpaces(after) && s == TrimBack(s) + Encoded(after)
    decreases |s|
  {
    hide TrailingSpace, Utf8, Encoded, Text.IsSpace;
    var n := |s| - TrailingSpace(s);
    if n == |s| {
      EncodedSnoc("", ' ');
      return "";
    }
    var c := TrailingRune(s);
    var others := TrimBackDropsSpaces(s[..n]);
    after := others + [c];
    assert TrimBack(s) == TrimBack(s[..n]);
    hide TrimBack;
    EncodedSnoc(others, c);
    Regroup(TrimBack(s), Encoded(others), s[n..]);
    assert s == s[..n] + s[n..];
  }

  /** No rune of white space begins the bytes and none ends them. */
  ghost predicate NoSpaceAtEnds(s: Bytes) {
    forall c | Text.IsSpace(c) :: !(Utf8(c) <= s) && !EndsIn(s, Utf8(c))
  }

  predicate EndsIn(s: Bytes, end: Bytes) {
    |end| <= |s| && s[|s| - |end|..] == end
  }

  lemma NoSpaceWhereNoneFound(s: Bytes)
    requires LeadingSpace(s) == 0 == TrailingSpace(s)
    ensures NoSpaceAtEnds(s)
  {
    hide Utf8, Text.IsSpace, SpaceOfOne, SpaceOfTwo, SpaceOfThree;
    forall c | Text.IsSpace(c)
      ensures !(Utf8(c) <= s) && !EndsIn(s, Utf8(c))
    {
      SpacesAreRunes(c);
    }
  }

  /** What trimming took off the front leaves no white space there once the back is trimmed. */
  lemma StillNoLeadingSpace(s: Bytes, r: Bytes)
    requires LeadingSpace(s) == 0 && r <= s
    ensures LeadingSpace(r) == 0
  {}

  /** Trimming takes off white space, all of it at either end, and nothing else: a text is runes of
      white space, what the splitter works on, and runes of white space, and what is between begins
      and ends with none. */
  lemma TrimmedIsBetweenSpaces(text: Bytes) returns (before: string, after: string)
    ensures AreSpaces(before) && AreSpaces(after)
    ensures text == Encoded(before) + Trimmed(text) + Encoded(after)
    ensures NoSpaceAtEnds(Trimmed(text))
  {
    hide LeadingSpace, TrailingSpace, Encoded;
    before := TrimFrontDropsSpaces(text);
    var front := TrimFront(text);
    after := TrimBackDropsSpaces(front);
    StillNoLeadingSpace(front, TrimBack(front));
    NoSpaceWhereNoneFound(Trimmed(text));
  }

  /** strings.TrimRight(s, "\n") */
  function DropNewlines(s: Bytes): (r: Bytes)
    ensures r <= s && Newlines(s[|r|..])
    ensures r != [] ==> r[|r| - 1] != NEWLINE
  {
    if s != [] && s[|s| - 1] == NEWLINE then DropNewlines(s[..|s| - 1]) else s
  }

  predicate Newlines(s: Bytes) {
    forall i :: 0 <= i < |s| ==> s[i] == NEWLINE
  }

  // --------------------------------------------------------------------- lines

  function Line(s: Bytes): (r: Bytes)
    ensures r <= s && NEWLINE !in r
    ensures |r| < |s| ==> s[|r|] == NEWLINE
  {
    if s == [] || s[0] == NEWLINE then [] else [s[0]] + Line(s[1..])
  }

  /** strings.Split(s, "\n") */
  function Lines(s: Bytes): (r: seq<Bytes>)
    ensures r != []
    ensures Closed(r) == s + [NEWLINE]
    decreases |s|
  {
    var l := Line(s);
    if |l| == |s| then
      assert Closed([l]) == l + [NEWLINE];
      [l]
    else
      var rest := Lines(s[|l| + 1..]);
      assert ([l] + rest)[1..] == rest;
      assert s == l + [NEWLINE] + s[|l| + 1..];
      assert l + [NEWLINE] + (s[|l| + 1..] + [NEWLINE]) == s + [NEWLINE];
      [l] + rest
  }

  lemma FirstLine(s: Bytes)
    ensures Lines(s)[0] == Line(s)
  {
    hide Closed, Line;
  }

  lemma {:induction false} LinesEndAtNewlines(s: Bytes)
    ensures forall i :: 0 <= i < |Lines(s)| ==> NEWLINE !in Lines(s)[i]
    decreases |s|
  {
    hide Closed;
    if |Line(s)| < |s| {
      LinesEndAtNewlines(s[|Line(s)| + 1..]);
    }
  }

  /** Every line with its newline, end to end. */
  function Closed(lines: seq<Bytes>): Bytes {
    if lines == [] then [] else lines[0] + [NEWLINE] + Closed(lines[1..])
  }

  lemma ClosedSnoc(lines: seq<Bytes>, line: Bytes)
    ensures Closed(lines + [line]) == Closed(lines) + (line + [NEWLINE])
  {
    if lines == [] {
      assert Closed([line]) == line + [NEWLINE];
    } else {
      assert (lines + [line])[1..] == lines[1..] + [line];
      ClosedSnoc(lines[1..], line);
    }
  }

  // -------------------------------------------------------------------- splits

  /** Chunks laid end to end, each followed by its gap. */
  function Woven(chunks: seq<Bytes>, gaps: seq<Bytes>): Bytes
    requires |chunks| == |gaps|
  {
    if chunks == [] then []
    else Woven(chunks[..|chunks| - 1], gaps[..|gaps| - 1]) + chunks[|chunks| - 1] + gaps[|gaps| - 1]
  }

  lemma WovenNothing()
    ensures Woven([], []) == []
  {}

  lemma OneChunk(text: Bytes, limit: nat)
    requires |text| <= limit
    ensures Packed([text], [[NEWLINE]], limit)
    ensures Woven([text], [[NEWLINE]]) == text + [NEWLINE]
  {
    assert Woven([text][..0], [[NEWLINE]][..0]) == [];
  }

  lemma WovenSnoc(chunks: seq<Bytes>, gaps: seq<Bytes>, chunk: Bytes, gap: Bytes)
    requires |chunks| == |gaps|
    ensures Woven(chunks + [chunk], gaps + [gap]) == Woven(chunks, gaps) + (chunk + gap)
  {
    assert (chunks + [chunk])[..|chunks|] == chunks && (gaps + [gap])[..|gaps|] == gaps;
  }

  /** A partial split: bounded chunks, gaps of newlines only, and greedy packing: a chunk was closed
      only because what came next did not fit beside it. */
  ghost predicate Packed(chunks: seq<Bytes>, gaps: seq<Bytes>, limit: nat) {
    && |chunks| == |gaps|
    && (forall i :: 0 <= i < |chunks| ==> |chunks[i]| <= limit && Newlines(gaps[i]))
    && (forall i :: 0 <= i < |chunks| - 1 ==> Piece(chunks, gaps, i) + Piece(chunks, gaps, i + 1) > limit)
  }

  /** Bytes of a chunk together with the newlines after it. */
  function Piece(chunks: seq<Bytes>, gaps: seq<Bytes>, i: nat): nat
    requires i < |chunks| == |gaps|
  {
    |chunks[i]| + |gaps[i]|
  }

  /** Nothing is dropped after a chunk, and another follows, only inside a line longer than a message: a
      whole message of that line with more of it to come. */
  ghost predicate LongCut(chunk: Bytes, gap: Bytes, next: Bytes, limit: nat) {
    gap == [] ==> |chunk| == limit && NEWLINE !in chunk && next != [] && next[0] != NEWLINE
  }

  ghost predicate CutsAreLong(chunks: seq<Bytes>, gaps: seq<Bytes>, limit: nat) {
    && |chunks| == |gaps|
    && forall i :: 0 <= i < |chunks| - 1 ==> LongCut(chunks[i], gaps[i], chunks[i + 1], limit)
  }

  /** What may come after the last closed chunk. */
  ghost predicate Follows(chunks: seq<Bytes>, gaps: seq<Bytes>, next: Bytes, limit: nat)
    requires |chunks| == |gaps|
  {
    chunks != [] ==> LongCut(chunks[|chunks| - 1], gaps[|gaps| - 1], next, limit)
  }

  lemma CutsSnoc(chunks: seq<Bytes>, gaps: seq<Bytes>, chunk: Bytes, gap: Bytes, limit: nat)
    requires CutsAreLong(chunks, gaps, limit) && Follows(chunks, gaps, chunk, limit)
    ensures CutsAreLong(chunks + [chunk], gaps + [gap], limit)
  {
    hide LongCut;
    var cs, gs := chunks + [chunk], gaps + [gap];
    forall i | 0 <= i < |cs| - 1
      ensures LongCut(cs[i], gs[i], cs[i + 1], limit)
    {
      if i < |chunks| - 1 {
        assert LongCut(chunks[i], gaps[i], chunks[i + 1], limit);
      }
    }
  }

  /** What follows a cut still does with its newlines dropped, or with more after it. */
  lemma FollowsStart(chunks: seq<Bytes>, gaps: seq<Bytes>, next: Bytes, other: Bytes, limit: nat)
    requires |chunks| == |gaps| && Follows(chunks, gaps, next, limit)
    requires next != [] && next[0] != NEWLINE ==> other != [] && other[0] == next[0]
    ensures Follows(chunks, gaps, other, limit)
  {}

  lemma DropNewlinesStart(s: Bytes)
    requires s != [] && s[0] != NEWLINE
    ensures DropNewlines(s) != [] && DropNewlines(s)[0] == s[0]
  {}

  /** What is being built may not be packed beside the last closed chunk. */
  ghost predicate Crowds(chunks: seq<Bytes>, gaps: seq<Bytes>, size: nat, limit: nat)
    requires |chunks| == |gaps|
  {
    chunks != [] ==> Piece(chunks, gaps, |chunks| - 1) + size > limit
  }

  predicate StartsFull(chunks: seq<Bytes>, limit: nat) {
    chunks != [] && |chunks[0]| == limit
  }

  lemma PackedSnoc(chunks: seq<Bytes>, gaps: seq<Bytes>, chunk: Bytes, gap: Bytes, limit: nat)
    requires Packed(chunks, gaps, limit) && |chunk| <= limit && Newlines(gap)
    requires Crowds(chunks, gaps, |chunk| + |gap|, limit)
    ensures Packed(chunks + [chunk], gaps + [gap], limit)
    ensures Piece(chunks + [chunk], gaps + [gap], |chunks|) == |chunk| + |gap|
  {
    var cs, gs := chunks + [chunk], gaps + [gap];
    forall i | 0 <= i < |cs| - 1
      ensures Piece(cs, gs, i) + Piece(cs, gs, i + 1) > limit
    {
      if i < |chunks| - 1 {
        assert Piece(chunks, gaps, i) + Piece(chunks, gaps, i + 1) > limit;
      }
    }
  }

  /** Closes the chunk being built, if there is one. */
  method Flush(chunks: seq<Bytes>, current: Bytes, ghost gaps: seq<Bytes>, limit: nat)
    returns (closed: seq<Bytes>, ghost closedGaps: seq<Bytes>)
    requires Packed(chunks, gaps, limit)
    requires current != [] ==> current[|current| - 1] == NEWLINE && |current| <= limit + 1
    requires current != [] ==> Crowds(chunks, gaps, |current|, limit)
    requires CutsAreLong(chunks, gaps, limit) && (current != [] ==> Follows(chunks, gaps, current, limit))
    ensures |closed| == |closedGaps| && Packed(closed, closedGaps, limit) && CutsAreLong(closed, closedGaps, limit)
    ensures current != [] ==> forall next :: Follows(closed, closedGaps, next, limit)
    ensures Woven(closed, closedGaps) == Woven(chunks, gaps) + current
    ensures chunks <= closed
    ensures current == [] ==> closed == chunks && closedGaps == gaps
    ensures current != [] ==> |closed| == |chunks| + 1 && Piece(closed, closedGaps, |closed| - 1) == |current|
  {
    closed, closedGaps := chunks, gaps;
    if current != [] {
      var chunk := DropNewlines(current);
      ghost var gap := current[|chunk|..];
      assert current == chunk + gap;
      if current[0] != NEWLINE {
        DropNewlinesStart(current);
      }
      assert gap != [];
      FollowsStart(chunks, gaps, current, chunk, limit);
      CutsSnoc(chunks, gaps, chunk, gap, limit);
      PackedSnoc(chunks, gaps, chunk, gap, limit);
      WovenSnoc(chunks, gaps, chunk, gap);
      closed, closedGaps := chunks + [chunk], gaps + [gap];
    }
  }

  /** What is being built: empty only before anything was closed, else a run of whole lines that
      crowds the last closed chunk. */
  ghost predicate Building(chunks: seq<Bytes>, gaps: seq<Bytes>, current: Bytes, limit: nat) {
    && Packed(chunks, gaps, limit)
    && CutsAreLong(chunks, gaps, limit)
    && (current == [] ==> chunks == [])
    && (current != [] ==> Follows(chunks, gaps, current, limit))
    && (current != [] ==> current[|current| - 1] == NEWLINE && |current| <= limit + 1)
    && Crowds(chunks, gaps, |current|, limit)
  }

  /** Closes a chunk of exactly limit bytes cut from an overlong line. */
  method Cut(chunks: seq<Bytes>, current: Bytes, ghost gaps: seq<Bytes>, piece: Bytes, limit: nat)
    returns (closed: seq<Bytes>, ghost closedGaps: seq<Bytes>)
    requires limit >= 1 && |piece| == limit && NEWLINE !in piece
    requires Packed(chunks, gaps, limit) && CutsAreLong(chunks, gaps, limit)
    requires current != [] ==> Building(chunks, gaps, current, limit)
    requires current == [] ==> Crowds(chunks, gaps, limit, limit) && Follows(chunks, gaps, piece, limit)
    ensures |closed| == |closedGaps| && Packed(closed, closedGaps, limit) && closed != [] && CutsAreLong(closed, closedGaps, limit)
    ensures forall next :: next != [] && next[0] != NEWLINE ==> Follows(closed, closedGaps, next, limit)
    ensures chunks <= closed && (current == [] ==> closed == chunks + [piece])
    ensures Woven(closed, closedGaps) == Woven(chunks, gaps) + current + piece
    ensures Piece(closed, closedGaps, |closed| - 1) == limit
  {
    hide Woven, CutsAreLong, DropNewlines;
    closed, closedGaps := Flush(chunks, current, gaps, limit);
    CutsSnoc(closed, closedGaps, piece, [], limit);
    PackedSnoc(closed, closedGaps, piece, [], limit);
    WovenSnoc(closed, closedGaps, piece, []);
    assert piece + [] == piece;
    closed, closedGaps := closed + [piece], closedGaps + [[]];
  }

  /** While a line is being cut: what is left of it, and what it may be added to. */
  ghost predicate Cutting(chunks: seq<Bytes>, gaps: seq<Bytes>, building: Bytes, rest: Bytes, limit: nat) {
    && |chunks| == |gaps| && NEWLINE !in rest
    && Packed(chunks, gaps, limit) && CutsAreLong(chunks, gaps, limit)
    && (building != [] ==> Building(chunks, gaps, building, limit))
    && (building == [] && chunks != [] ==>
          rest != [] && Piece(chunks, gaps, |chunks| - 1) == limit && Follows(chunks, gaps, rest, limit))
  }

  /** Closes what is being built and the first limit bytes of what is left of the line. */
  method CutOnce(chunks: seq<Bytes>, building: Bytes, ghost gaps: seq<Bytes>, rest: Bytes, limit: nat)
    returns (closed: seq<Bytes>, ghost closedGaps: seq<Bytes>)
    requires limit >= 1 && |rest| > limit && Cutting(chunks, gaps, building, rest, limit)
    ensures Cutting(closed, closedGaps, [], rest[limit..], limit)
    ensures chunks <= closed && (building == [] && chunks == [] ==> StartsFull(closed, limit))
    ensures Woven(closed, closedGaps) + (rest[limit..] + [NEWLINE]) == Woven(chunks, gaps) + building + (rest + [NEWLINE])
  {
    hide Woven, Packed, CutsAreLong, LongCut, Newlines, DropNewlines;
    var piece := rest[..limit];
    assert rest == piece + rest[limit..] && rest[limit] in rest && piece[0] == rest[0];
    if building == [] {
      FollowsStart(chunks, gaps, rest, piece, limit);
    }
    closed, closedGaps := Cut(chunks, building, gaps, piece, limit);
    ghost var before := Woven(chunks, gaps) + building;
    assert before + piece + (rest[limit..] + [NEWLINE]) == before + (rest + [NEWLINE]);
  }

  /** Adds what is left of a line to what is being built, closing that first if they do not fit. */
  method AddRest(chunks: seq<Bytes>, current: Bytes, ghost gaps: seq<Bytes>, rest: Bytes, limit: nat)
    returns (closed: seq<Bytes>, building: Bytes, ghost closedGaps: seq<Bytes>)
    requires limit >= 1 && |rest| <= limit && Cutting(chunks, gaps, current, rest, limit)
    ensures Building(closed, closedGaps, building, limit) && building != []
    ensures chunks <= closed
    ensures Woven(closed, closedGaps) + building == Woven(chunks, gaps) + current + (rest + [NEWLINE])
  {
    hide Woven, Packed, CutsAreLong, LongCut, Newlines, DropNewlines;
    closed, building, closedGaps := chunks, current, gaps;
    ghost var before := Woven(chunks, gaps) + current;
    if |building| + |rest| + 1 > limit {
      closed, closedGaps := Flush(closed, building, closedGaps, limit);
      building := [];
    }
    assert Woven(closed, closedGaps) + building == before;
    assert before + (rest + [NEWLINE]) == Woven(closed, closedGaps) + (building + rest + [NEWLINE]);
    ghost var last := if building == [] then rest else building;
    if closed != [] {
      FollowsStart(closed, closedGaps, last, building + rest + [NEWLINE], limit);
    }
    building := building + rest + [NEWLINE];
  }

  /** Cuts an overlong line, then adds what is left of it to the chunk being built. */
  method AddLine(chunks: seq<Bytes>, current: Bytes, ghost gaps: seq<Bytes>, line: Bytes, limit: nat)
    returns (closed: seq<Bytes>, building: Bytes, ghost closedGaps: seq<Bytes>)
    requires limit >= 1 && NEWLINE !in line
    requires Building(chunks, gaps, current, limit)
    ensures Building(closed, closedGaps, building, limit) && building != []
    ensures chunks <= closed
    ensures current == [] && |line| > limit ==> StartsFull(closed, limit)
    ensures Woven(closed, closedGaps) + building == Woven(chunks, gaps) + current + (line + [NEWLINE])
  {
    closed, building, closedGaps := chunks, current, gaps;
    var rest := line;
    assert |closed| == |closedGaps| && Cutting(closed, closedGaps, building, rest, limit);
    assert current == [] ==> chunks == [];
    hide Woven, Building, Cutting;
    while |rest| > limit
      invariant |closed| == |closedGaps| && Cutting(closed, closedGaps, building, rest, limit)
      invariant Woven(closed, closedGaps) + building + (rest + [NEWLINE]) == Woven(chunks, gaps) + current + (line + [NEWLINE])
      invariant chunks <= closed
      invariant current == [] ==> StartsFull(closed, limit) || (closed == [] && building == [] && rest == line)
      decreases |rest|
    {
      closed, closedGaps := CutOnce(closed, building, closedGaps, rest, limit);
      building, rest := [], rest[limit..];
      assert Woven(closed, closedGaps) + building == Woven(closed, closedGaps);
    }
    closed, building, closedGaps := AddRest(closed, building, closedGaps, rest, limit);
  }

  lemma NothingBuilt(limit: nat)
    ensures Building([], [], [], limit)
  {}

  lemma BuildingCloses(chunks: seq<Bytes>, gaps: seq<Bytes>, current: Bytes, limit: nat)
    requires Building(chunks, gaps, current, limit)
    ensures |chunks| == |gaps| && Packed(chunks, gaps, limit) && CutsAreLong(chunks, gaps, limit)
    ensures current != [] ==>
      && Follows(chunks, gaps, current, limit) && Crowds(chunks, gaps, |current|, limit)
      && current[|current| - 1] == NEWLINE && |current| <= limit + 1
  {}

  /** Packs lines into chunks, each line with its newline. */
  method PackLines(lines: seq<Bytes>, limit: nat) returns (chunks: seq<Bytes>, ghost gaps: seq<Bytes>)
    requires limit >= 1 && lines != []
    requires forall i :: 0 <= i < |lines| ==> NEWLINE !in lines[i]
    ensures Packed(chunks, gaps, limit) && CutsAreLong(chunks, gaps, limit)
    ensures Woven(chunks, gaps) == Closed(lines)
    ensures |lines[0]| > limit ==> |chunks| > 1 && StartsFull(chunks, limit)
  {
    WovenNothing();
    NothingBuilt(limit);
    assert Closed(lines[..0]) == [];
    hide Woven, Closed, Building, Packed, CutsAreLong, Follows, Crowds, Piece;
    chunks, gaps := [], [];
    var current: Bytes := [];
    for i := 0 to |lines|
      invariant |chunks| == |gaps| && Building(chunks, gaps, current, limit)
      invariant Woven(chunks, gaps) + current == Closed(lines[..i])
      invariant i == 0 ==> current == []
      invariant i > 0 && |lines[0]| > limit ==> StartsFull(chunks, limit) && current != []
    {
      assert lines[..i + 1] == lines[..i] + [lines[i]];
      ClosedSnoc(lines[..i], lines[i]);
      chunks, current, gaps := AddLine(chunks, current, gaps, lines[i], limit);
      BuildingCloses(chunks, gaps, current, limit);
    }
    assert lines[..|lines|] == lines;
    BuildingCloses(chunks, gaps, current, limit);
    chunks, gaps := Flush(chunks, current, gaps, limit);
  }

  /** Breaks text into chunks of at most limit bytes, preferring line boundaries. Laid end to end
      with the newlines dropped after each, the chunks are the trimmed text; no two neighbours,
      counted with those newlines, would have fitted in one message; and only a line too long for one
      is ever cut. If that is the first line, it fills the first chunk. */
  method Split(text: Bytes, limit: nat) returns (chunks: seq<Bytes>, ghost gaps: seq<Bytes>)
    requires limit >= 1
    ensures Packed(chunks, gaps, limit) && CutsAreLong(chunks, gaps, limit)
    ensures Trimmed(text) == [] ==> chunks == []
    ensures Trimmed(text) != [] ==> Woven(chunks, gaps) == Trimmed(text) + [NEWLINE]
    ensures 0 < |Trimmed(text)| <= limit ==> chunks == [Trimmed(text)]
    ensures |Line(Trimmed(text))| > limit ==> |chunks| > 1 && StartsFull(chunks, limit)
  {
    hide Woven, Trimmed, Line, Lines, Closed;
    var trimmed := Trimmed(text);
    if trimmed == [] {
      return [], [];
    }
    if |trimmed| <= limit {
      OneChunk(trimmed, limit);
      return [trimmed], [[NEWLINE]];
    }
    FirstLine(trimmed);
    LinesEndAtNewlines(trimmed);
    chunks, gaps := PackLines(Lines(trimmed), limit);
  }

  lemma WovenLastTwo(chunks: seq<Bytes>, gaps: seq<Bytes>)
    requires |chunks| == |gaps| >= 2
    ensures var n := |chunks|;
      |Woven(chunks, gaps)|
        == |Woven(chunks[..n - 2], gaps[..n - 2])| + Piece(chunks, gaps, n - 2) + Piece(chunks, gaps, n - 1)
  {
    var n := |chunks|;
    assert chunks[..n - 1][..n - 2] == chunks[..n - 2] && gaps[..n - 1][..n - 2] == gaps[..n - 2];
  }

  lemma PackedPrefix(chunks: seq<Bytes>, gaps: seq<Bytes>, limit: nat, n: nat)
    requires Packed(chunks, gaps, limit) && n <= |chunks|
    ensures Packed(chunks[..n], gaps[..n], limit)
  {
    forall i | 0 <= i < n - 1
      ensures Piece(chunks[..n], gaps[..n], i) + Piece(chunks[..n], gaps[..n], i + 1) > limit
    {
      assert Piece(chunks, gaps, i) + Piece(chunks, gaps, i + 1) > limit;
    }
  }

  lemma HalfStep(n: nat, unit: nat)
    requires n >= 2
    ensures n / 2 * unit == (n - 2) / 2 * unit + unit
  {
    assert n / 2 == (n - 2) / 2 + 1;
  }

  /** Greedy packing bounds the number of chunks: half of them, rounded down, would each fill more
      than a message. */
  lemma {:induction false} PackingBound(chunks: seq<Bytes>, gaps: seq<Bytes>, limit: nat)
    requires Packed(chunks, gaps, limit)
    ensures |chunks| / 2 * (limit + 1) <= |Woven(chunks, gaps)|
    decreases |chunks|
  {
    hide Woven;
    var n := |chunks|;
    if n >= 2 {
      PackedPrefix(chunks, gaps, limit, n - 2);
      PackingBound(chunks[..n - 2], gaps[..n - 2], limit);
      WovenLastTwo(chunks, gaps);
      assert Piece(chunks, gaps, n - 2) + Piece(chunks, gaps, n - 1) > limit;
      HalfStep(n, limit + 1);
    }
  }

  lemma ScaleMonotone(a: int, b: int, unit: nat)
    requires a <= b
    ensures a * unit <= b * unit
  {
    assert (b - a) * unit >= 0;
  }

  /** A split of a text has at most 2 * (length + 1) / (limit + 1) + 1 chunks. */
  lemma SplitIsShort(chunks: seq<Bytes>, gaps: seq<Bytes>, trimmed: Bytes, limit: nat)
    requires Packed(chunks, gaps, limit) && Woven(chunks, gaps) == trimmed + [NEWLINE]
    ensures (|chunks| - 1) * (limit + 1) <= 2 * (|trimmed| + 1)
  {
    hide Woven, Packed;
    PackingBound(chunks, gaps, limit);
    ScaleMonotone(|chunks| - 1, 2 * (|chunks| / 2), limit + 1);
    assert 2 * (|chunks| / 2) * (limit + 1) == 2 * (|chunks| / 2 * (limit + 1));
  }

  // ------------------------------------------------------------------ whole lines

  /** Where a chunk begins in what is woven. */
  function Start(chunks: seq<Bytes>, gaps: seq<Bytes>, i: nat): nat
    requires i <= |chunks| == |gaps|
  {
    |Woven(chunks[..i], gaps[..i])|
  }

  lemma WovenEnds(chunks: seq<Bytes>, gaps: seq<Bytes>)
    requires |chunks| == |gaps| > 0
    ensures var n := |chunks| - 1;
      && Start(chunks, gaps, n) == |Woven(chunks[..n], gaps[..n])| && Start(chunks, gaps, n + 1) == |Woven(chunks, gaps)|
      && Woven(chunks, gaps) == Woven(chunks[..n], gaps[..n]) + (chunks[n] + gaps[n])
  {
    assert chunks[..|chunks|] == chunks && gaps[..|gaps|] == gaps;
  }

  lemma StartOfPrefix(chunks: seq<Bytes>, gaps: seq<Bytes>, n: nat, i: nat)
    requires i <= n <= |chunks| == |gaps|
    ensures Start(chunks[..n], gaps[..n], i) == Start(chunks, gaps, i)
  {
    assert chunks[..n][..i] == chunks[..i] && gaps[..n][..i] == gaps[..i];
  }

  /** Where each byte of a chunk and of its gap is in what is woven. */
  lemma {:induction false} WovenAt(chunks: seq<Bytes>, gaps: seq<Bytes>, i: nat)
    requires i < |chunks| == |gaps|
    ensures var start, end, next := Start(chunks, gaps, i), Start(chunks, gaps, i) + |chunks[i]|, Start(chunks, gaps, i + 1);
      && next == end + |gaps[i]| <= |Woven(chunks, gaps)|
      && (i == |chunks| - 1 ==> next == |Woven(chunks, gaps)|)
      && (forall k :: start <= k < end ==> Woven(chunks, gaps)[k] == chunks[i][k - start])
      && (forall k :: end <= k < next ==> Woven(chunks, gaps)[k] == gaps[i][k - end])
    decreases |chunks|
  {
    var n := |chunks| - 1;
    WovenEnds(chunks, gaps);
    hide Woven, Start;
    if i < n {
      WovenAt(chunks[..n], gaps[..n], i);
      WovenEnds(chunks[..n], gaps[..n]);
      StartOfPrefix(chunks, gaps, n, i);
      StartOfPrefix(chunks, gaps, n, i + 1);
    }
  }

  lemma {:induction false} Locate(chunks: seq<Bytes>, gaps: seq<Bytes>, at: nat) returns (i: nat)
    requires |chunks| == |gaps| && at < |Woven(chunks, gaps)|
    ensures i < |chunks| && Start(chunks, gaps, i) <= at < Start(chunks, gaps, i + 1)
    decreases |chunks|
  {
    var n := |chunks| - 1;
    WovenEnds(chunks, gaps);
    if at >= Start(chunks, gaps, n) {
      i := n;
    } else {
      i := Locate(chunks[..n], gaps[..n], at);
      StartOfPrefix(chunks, gaps, n, i);
      StartOfPrefix(chunks, gaps, n, i + 1);
    }
  }

  /** A line of a text that is not blank: from one newline or end to the next. */
  ghost predicate IsLine(text: Bytes, from: nat, to: nat) {
    && from < to <= |text| && NEWLINE !in text[from..to]
    && (from == 0 || text[from - 1] == NEWLINE)
    && (to == |text| || text[to] == NEWLINE)
  }

  ghost predicate IsSplit(chunks: seq<Bytes>, gaps: seq<Bytes>, text: Bytes, limit: nat) {
    && Packed(chunks, gaps, limit) && CutsAreLong(chunks, gaps, limit)
    && Woven(chunks, gaps) == text + [NEWLINE]
  }

  /** The chunk a line begins in holds all of it, or begins with it and is filled by it. */
  lemma LineIsWholeOrFills(chunks: seq<Bytes>, gaps: seq<Bytes>, text: Bytes, limit: nat, from: nat, to: nat) returns (i: nat)
    requires IsSplit(chunks, gaps, text, limit) && IsLine(text, from, to)
    ensures i < |chunks| && Start(chunks, gaps, i) <= from < Start(chunks, gaps, i) + |chunks[i]|
    ensures to - from <= limit ==> to <= Start(chunks, gaps, i) + |chunks[i]|
    ensures to - from > limit ==> |chunks[i]| == limit && i < |chunks| - 1
  {
    var woven := Woven(chunks, gaps);
    i := Locate(chunks, gaps, from);
    WovenAt(chunks, gaps, i);
    var start, next := Start(chunks, gaps, i), Start(chunks, gaps, i + 1);
    var end := start + |chunks[i]|;
    hide Woven;
    assert forall k :: from <= k < to ==> woven[k] == text[from..to][k - from] != NEWLINE;
    assert forall k :: end <= k < next ==> woven[k] == gaps[i][k - end] == NEWLINE;
    assert woven[from] != NEWLINE;
    if end < to {
      assert woven[end] != NEWLINE;
      assert |gaps[i]| == next - end == 0;
      assert from > 0 ==> woven[from - 1] == text[from - 1] == NEWLINE;
      assert forall k :: start <= k < end ==> woven[k] == chunks[i][k - start];
      if i < |chunks| - 1 {
        assert LongCut(chunks[i], gaps[i], chunks[i + 1], limit);
      }
    }
  }

  /** The stretch of text lies in this one chunk. */
  ghost predicate HeldWhole(chunks: seq<Bytes>, gaps: seq<Bytes>, i: nat, text: Bytes, from: nat, to: nat)
    requires i < |chunks| == |gaps| && from <= to <= |text|
  {
    var start := Start(chunks, gaps, i);
    start <= from && to <= start + |chunks[i]| && chunks[i][from - start..to - start] == text[from..to]
  }

  lemma SameStretch(chunk: Bytes, start: nat, text: Bytes, from: nat, to: nat)
    requires start <= from <= to <= |text| && to - start <= |chunk|
    requires forall k :: from <= k < to ==> chunk[k - start] == text[k]
    ensures chunk[from - start..to - start] == text[from..to]
  {}

  /** A line that fits in a message is kept whole: it lies in one chunk. */
  lemma LinesThatFitStayWhole(chunks: seq<Bytes>, gaps: seq<Bytes>, text: Bytes, limit: nat, from: nat, to: nat)
    requires IsSplit(chunks, gaps, text, limit) && IsLine(text, from, to) && to - from <= limit
    ensures exists i :: 0 <= i < |chunks| && HeldWhole(chunks, gaps, i, text, from, to)
  {
    var woven := Woven(chunks, gaps);
    var i := LineIsWholeOrFills(chunks, gaps, text, limit, from, to);
    WovenAt(chunks, gaps, i);
    hide Woven, Packed, CutsAreLong, Start, IsLine;
    var start := Start(chunks, gaps, i);
    forall k | from <= k < to
      ensures chunks[i][k - start] == text[k]
    {
      assert chunks[i][k - start] == woven[k];
    }
    SameStretch(chunks[i], start, text, from, to);
    assert HeldWhole(chunks, gaps, i, text, from, to);
  }

  /** A line that does not fit, wherever it is, fills a chunk that is not the last. */
  lemma LinesThatDoNotFitFillAChunk(chunks: seq<Bytes>, gaps: seq<Bytes>, text: Bytes, limit: nat, from: nat, to: nat)
    requires IsSplit(chunks, gaps, text, limit) && IsLine(text, from, to) && to - from > limit
    ensures exists i :: 0 <= i < |chunks| - 1 && |chunks[i]| == limit
  {
    hide Woven, IsLine;
    var i := LineIsWholeOrFills(chunks, gaps, text, limit, from, to);
    assert |chunks[i]| == limit;
  }

  // ------------------------------------------------------------------- posting

  const MAX_MESSAGE_BYTES := 3500

  function Decimal(n: nat): (digits: Bytes)
    ensures digits != []
  {
    (if n < 10 then [] else Decimal(n / 10)) + [(48 + n % 10) as Byte]
  }

  /** "(i/n)" and a newline. */
  function Heading(i: nat, n: nat): Bytes {
    [40] + Decimal(i) + [47] + Decimal(n) + [41, NEWLINE]
  }

  /** The number some digits spell. */
  function Spelled(digits: Bytes): int {
    if digits == [] then 0 else 10 * Spelled(digits[..|digits| - 1]) + (digits[|digits| - 1] as int) - 48
  }

  /** The bytes are the decimal numeral of a number: digits that spell it, the first no zero but in
      zero itself. */
  predicate Numeral(digits: Bytes, n: nat) {
    && digits != []
    && (forall k :: 0 <= k < |digits| ==> 48 <= digits[k] <= 57)
    && (digits[0] == 48 ==> digits == [48])
    && Spelled(digits) == n
  }

  lemma NumeralSnoc(front: Bytes, n: nat)
    requires n >= 10 && Numeral(front, n / 10)
    ensures Numeral(front + [(48 + n % 10) as Byte], n)
  {
    var all := front + [(48 + n % 10) as Byte];
    assert all[..|front|] == front;
    assert Spelled(all) == 10 * Spelled(front) + n % 10;
    assert Spelled(front[..0]) == 0;
  }

  lemma {:induction false} DecimalIsNumeral(n: nat)
    ensures Numeral(Decimal(n), n)
  {
    if n < 10 {
      assert Spelled(Decimal(n)[..0]) == 0;
    } else {
      hide Numeral, Spelled;
      DecimalIsNumeral(n / 10);
      NumeralSnoc(Decimal(n / 10), n);
    }
  }

  /** A numeral leaves no choice of digits. */
  lemma {:induction false} NumeralIsUnique(a: Bytes, b: Bytes, n: nat)
    requires Numeral(a, n) && Numeral(b, n)
    ensures a == b
  {
    NumeralSteps(a, n);
    NumeralSteps(b, n);
    if n >= 10 {
      NumeralIsUnique(a[..|a| - 1], b[..|b| - 1], n / 10);
    }
    assert a == a[..|a| - 1] + [a[|a| - 1]];
    assert b == b[..|b| - 1] + [b[|b| - 1]];
  }

  lemma NumeralSteps(a: Bytes, n: nat)
    requires Numeral(a, n)
    ensures a[|a| - 1] as int == 48 + n % 10
    ensures if n < 10 then |a| == 1 else |a| > 1 && Numeral(a[..|a| - 1], n / 10)
  {
    var front := a[..|a| - 1];
    var last := (a[|a| - 1] as int) - 48;
    if front != [] {
      SpelledPositive(front);
    } else {
      assert Spelled(front) == 0;
    }
    Tens(Spelled(front), last, n);
  }

  lemma Tens(q: int, r: int, n: nat)
    requires n == 10 * q + r && 0 <= r < 10
    ensures n / 10 == q && n % 10 == r
  {}

  lemma {:induction false} SpelledPositive(digits: Bytes)
    requires digits != [] && forall k :: 0 <= k < |digits| ==> 48 <= digits[k] <= 57
    ensures Spelled(digits) >= 0
    ensures digits[0] != 48 ==> Spelled(digits) > 0
  {
    if |digits| > 1 {
      SpelledPositive(digits[..|digits| - 1]);
    } else {
      assert Spelled(digits[..0]) == 0;
    }
  }

  /** One of several messages is an opening parenthesis, its number counted from one, a slash, the
      number of messages, a closing parenthesis and a newline before its chunk; a message that is
      alone is its chunk. */
  lemma LabelledReads(chunks: seq<Bytes>, i: nat, a: Bytes, b: Bytes)
    requires i < |chunks| && Numeral(a, i + 1) && Numeral(b, |chunks|)
    ensures |chunks| == 1 ==> Labelled(chunks, i) == chunks[0]
    ensures |chunks| > 1 ==> Labelled(chunks, i) == [40] + a + [47] + b + [41, 10] + chunks[i]
  {
    hide Decimal, Numeral;
    DecimalIsNumeral(i + 1);
    DecimalIsNumeral(|chunks|);
    NumeralIsUnique(a, Decimal(i + 1), i + 1);
    NumeralIsUnique(b, Decimal(|chunks|), |chunks|);
  }

  lemma {:induction false} DecimalGrows(i: nat, n: nat)
    requires i <= n
    ensures |Decimal(i)| <= |Decimal(n)|
  {
    if i >= 10 {
      DecimalGrows(i / 10, n / 10);
    }
  }

  /** One message: the chunk, under a heading when there are several. */
  function Labelled(chunks: seq<Bytes>, i: nat): Bytes
    requires i < |chunks|
  {
    if |chunks| > 1 then Heading(i + 1, |chunks|) + chunks[i] else chunks[i]
  }

  /** A message is its chunk and its heading: two numbers, neither longer than the number of chunks,
      and four bytes. */
  lemma LabelledBound(chunks: seq<Bytes>, i: nat)
    requires i < |chunks|
    ensures |Labelled(chunks, i)| ==
      |chunks[i]| + if |chunks| > 1 then |Decimal(i + 1)| + |Decimal(|chunks|)| + 4 else 0
    ensures |Labelled(chunks, i)| <= |chunks[i]| + 4 + 2 * |Decimal(|chunks|)|
    ensures |chunks| > 1 ==> |Labelled(chunks, i)| >= |chunks[i]| + 6
  {
    DecimalGrows(i + 1, |chunks|);
  }

  lemma LabelledBounds(chunks: seq<Bytes>, gaps: seq<Bytes>)
    requires Packed(chunks, gaps, MAX_MESSAGE_BYTES)
    ensures forall i :: 0 <= i < |chunks| ==>
      && |chunks[i]| <= MAX_MESSAGE_BYTES
      && |Labelled(chunks, i)| == |chunks[i]| + (if |chunks| > 1 then |Decimal(i + 1)| + |Decimal(|chunks|)| + 4 else 0)
      && |Labelled(chunks, i)| <= |chunks[i]| + 4 + 2 * |Decimal(|chunks|)|
      && (|chunks| > 1 ==> |Labelled(chunks, i)| >= |chunks[i]| + 6)
  {
    hide Labelled, Decimal;
    forall i | 0 <= i < |chunks| {
      LabelledBound(chunks, i);
    }
  }

  datatype Posted = AllSent | NothingToPost | FirstFailed | Stopped(sent: nat, parts: nat)

  /** Some line of the text does not fit in a message. */
  ghost predicate HasLongLine(text: Bytes, limit: nat) {
    exists from: nat, to: nat :: IsLine(text, from, to) && to - from > limit
  }

  lemma NoLineInNothing(limit: nat)
    ensures !HasLongLine([], limit)
  {}

  lemma LongLinesOverfill(chunks: seq<Bytes>, gaps: seq<Bytes>, text: Bytes)
    requires IsSplit(chunks, gaps, text, MAX_MESSAGE_BYTES) && HasLongLine(text, MAX_MESSAGE_BYTES)
    ensures exists i :: 0 <= i < |chunks| && |Labelled(chunks, i)| > MAX_MESSAGE_BYTES
  {
    var from: nat, to: nat :| IsLine(text, from, to) && to - from > MAX_MESSAGE_BYTES;
    hide IsLine, IsSplit, Labelled;
    LinesThatDoNotFitFillAChunk(chunks, gaps, text, MAX_MESSAGE_BYTES, from, to);
    var i :| 0 <= i < |chunks| - 1 && |chunks[i]| == MAX_MESSAGE_BYTES;
    LabelledBound(chunks, i);
    assert |Labelled(chunks, i)| > MAX_MESSAGE_BYTES;
  }

  /** Sends the chunks in order, labelled when there is more than one, and stops at the first that
      is refused; the report says how many went out. The heading is not part of what was split: a
      message exceeds the limit exactly when its chunk and its heading together do, and one always
      does when a line of the text is longer than a message. */
  method Post(text: Bytes, accepted: nat -> bool)
    returns (result: Posted, messages: seq<Bytes>, chunks: seq<Bytes>, ghost gaps: seq<Bytes>)
    ensures Packed(chunks, gaps, MAX_MESSAGE_BYTES) && CutsAreLong(chunks, gaps, MAX_MESSAGE_BYTES)
    ensures Trimmed(text) != [] ==> Woven(chunks, gaps) == Trimmed(text) + [NEWLINE]
    ensures result.NothingToPost? <==> Trimmed(text) == []
    ensures |messages| <= |chunks|
    ensures forall i :: 0 <= i < |messages| ==> accepted(i) && messages[i] == Labelled(chunks, i)
    ensures forall i :: 0 <= i < |messages| ==>
      (|messages[i]| > MAX_MESSAGE_BYTES <==>
        |chunks| > 1 && |chunks[i]| + |Decimal(i + 1)| + |Decimal(|chunks|)| + 4 > MAX_MESSAGE_BYTES)
    ensures forall i :: 0 <= i < |messages| ==> |messages[i]| <= MAX_MESSAGE_BYTES + 4 + 2 * |Decimal(|chunks|)|
    ensures HasLongLine(Trimmed(text), MAX_MESSAGE_BYTES) ==>
      exists i :: 0 <= i < |chunks| && |Labelled(chunks, i)| > MAX_MESSAGE_BYTES
    ensures |Line(Trimmed(text))| > MAX_MESSAGE_BYTES && messages != [] ==> |messages[0]| > MAX_MESSAGE_BYTES
    ensures |messages| < |chunks| ==> !accepted(|messages|)
    ensures match result
            case AllSent => |messages| == |chunks|
            case NothingToPost => messages == []
            case FirstFailed => messages == [] && chunks != []
            case Stopped(sent, parts) => 0 < sent == |messages| < parts == |chunks|
  {
    hide Woven, Trimmed, Line, Heading, Decimal, CutsAreLong, HasLongLine;
    chunks, gaps := Split(text, MAX_MESSAGE_BYTES);
    messages := [];
    if |chunks| == 0 {
      if Trimmed(text) != [] {
        WovenNothing();
        assert false;
      }
      NoLineInNothing(MAX_MESSAGE_BYTES);
      return NothingToPost, [], chunks, gaps;
    }
    LabelledBounds(chunks, gaps);
    if HasLongLine(Trimmed(text), MAX_MESSAGE_BYTES) {
      LongLinesOverfill(chunks, gaps, Trimmed(text));
    }
    for i := 0 to |chunks|
      invariant |messages| == i
      invariant forall k :: 0 <= k < i ==> accepted(k) && messages[k] == Labelled(chunks, k)
    {
      var message := chunks[i];
      if |chunks| > 1 {
        message := Heading(i + 1, |chunks|) + message;
      }
      if !accepted(i) {
        if i == 0 {
          return FirstFailed, messages, chunks, gaps;
        }
        return Stopped(i, |chunks|), messages, chunks, gaps;
      }
      messages := messages + [message];
    }
    return AllSent, messages, chunks, gaps;
  }
}
