/** Go strings. A string that came through a JSON decoder is valid UTF-8, so it is a sequence of
    runes; `len` counts the bytes of its UTF-8 form. The parts of the Unicode tables the program
    reaches for outside ASCII are fields of `Runes`; the ASCII parts and white space are fixed. */
module Text {

  datatype Runes = Runes(
    letter: char -> bool,
    digit: char -> bool,
    lowercase: char -> bool,
    lower: char -> char)

  function Width(c: char): nat {
    if (c as int) < 0x80 then 1 else if (c as int) < 0x800 then 2 else if (c as int) < 0x10000 then 3 else 4
  }

  /** Go's len(s). */
  function ByteLen(s: string): nat {
    if s == "" then 0 else Width(s[0]) + ByteLen(s[1..])
  }

  predicate Ascii(c: char) { (c as int) < 0x80 }

  lemma AsciiLength(s: string)
    requires forall i :: 0 <= i < |s| ==> Ascii(s[i])
    ensures ByteLen(s) == |s|
  {}

  lemma ByteLenBound(s: string)
    ensures |s| <= ByteLen(s) <= 4 * |s|
  {}

  predicate IsLetter(t: Runes, c: char) {
    if Ascii(c) then 'a' <= c <= 'z' || 'A' <= c <= 'Z' else t.letter(c)
  }

  predicate IsDigit(t: Runes, c: char) {
    if Ascii(c) then '0' <= c <= '9' else t.digit(c)
  }

  predicate IsLower(t: Runes, c: char) {
    if Ascii(c) then 'a' <= c <= 'z' else t.lowercase(c)
  }

  /** unicode.IsControl: category Cc, all of which lies in Latin-1. */
  predicate IsControl(c: char) {
    (c as int) < 0x20 || 0x7f <= (c as int) < 0xa0
  }

  /** unicode.IsSpace. */
  predicate IsSpace(c: char) {
    var n := c as int;
    9 <= n <= 13 || n == 32 || n == 0x85 || n == 0xa0 || n == 0x1680 || 0x2000 <= n <= 0x200a
    || n == 0x2028 || n == 0x2029 || n == 0x202f || n == 0x205f || n == 0x3000
  }

  function LowerRune(t: Runes, c: char): char {
    if 'A' <= c <= 'Z' then ((c as int) + 32) as char else if Ascii(c) then c else t.lower(c)
  }

  /** strings.ToLower */
  function Lower(t: Runes, s: string): string {
    seq(|s|, i requires 0 <= i < |s| => LowerRune(t, s[i]))
  }

  function TrimLeft(s: string, cut: char -> bool): string {
    if s != "" && cut(s[0]) then TrimLeft(s[1..], cut) else s
  }

  function TrimRight(s: string, cut: char -> bool): string {
    if s != "" && cut(s[|s| - 1]) then TrimRight(s[..|s| - 1], cut) else s
  }

  /** strings.TrimSpace */
  function TrimSpace(s: string): string {
    TrimRight(TrimLeft(s, IsSpace), IsSpace)
  }

  predicate HasPrefix(s: string, prefix: string) {
    prefix <= s
  }

  /** strings.Contains */
  predicate Contains(s: string, part: string) {
    part <= s || (s != "" && Contains(s[1..], part))
  }

  /** The leading run of runes that are not white space. */
  function Word(s: string): (w: string)
    ensures w <= s
    ensures forall i :: 0 <= i < |w| ==> !IsSpace(w[i])
    ensures |w| < |s| ==> IsSpace(s[|w|])
  {
    if s == "" || IsSpace(s[0]) then "" else [s[0]] + Word(s[1..])
  }

  lemma TrimLeftLength(s: string, cut: char -> bool)
    ensures |TrimLeft(s, cut)| <= |s|
    ensures TrimLeft(s, cut) != "" ==> !cut(TrimLeft(s, cut)[0])
  {}

  /** strings.Fields */
  function Fields(s: string): seq<string>
    decreases |s|
  {
    var rest := TrimLeft(s, IsSpace);
    TrimLeftLength(s, IsSpace);
    if rest == "" then [] else [Word(rest)] + Fields(rest[|Word(rest)|..])
  }

  /** strings.Join(words, " ") */
  function Join(words: seq<string>): string {
    if words == [] then "" else if |words| == 1 then words[0] else words[0] + " " + Join(words[1..])
  }

  /** strings.Join(strings.Fields(strings.ToLower(strings.TrimSpace(s))), " ") */
  function Normalize(t: Runes, s: string): string {
    Join(Fields(Lower(t, TrimSpace(s))))
  }

  // ---------------------------------------------------------------- trimming

  lemma TrimRightIsPrefix(s: string, cut: char -> bool)
    ensures TrimRight(s, cut) <= s
    ensures TrimRight(s, cut) != "" ==> !cut(TrimRight(s, cut)[|TrimRight(s, cut)| - 1])
    ensures forall i :: |TrimRight(s, cut)| <= i < |s| ==> cut(s[i])
  {
    if s != "" && cut(s[|s| - 1]) {
      TrimRightIsPrefix(s[..|s| - 1], cut);
    }
  }

  /** A string is its own trim exactly when neither end is white space. */
  lemma TrimSpaceFixed(s: string)
    ensures TrimSpace(s) == s <==> s == "" || (!IsSpace(s[0]) && !IsSpace(s[|s| - 1]))
  {
    TrimLeftLength(s, IsSpace);
    TrimRightIsPrefix(TrimLeft(s, IsSpace), IsSpace);
    if s != "" && IsSpace(s[0]) {
      TrimLeftLength(s[1..], IsSpace);
    }
  }

  /** Trimming twice is trimming once, so a query normalised by the planner plans to itself. */
  lemma TrimSpaceIdempotent(s: string)
    ensures TrimSpace(TrimSpace(s)) == TrimSpace(s)
  {
    var left := TrimLeft(s, IsSpace);
    TrimLeftLength(s, IsSpace);
    TrimRightIsPrefix(left, IsSpace);
    TrimSpaceFixed(TrimSpace(s));
  }

  predicate All(s: string, cut: char -> bool) {
    forall i :: 0 <= i < |s| ==> cut(s[i])
  }

  /** Neither end is one to be cut. */
  predicate Bare(s: string, cut: char -> bool) {
    s != "" ==> !cut(s[0]) && !cut(s[|s| - 1])
  }

  lemma {:induction false} TrimLeftSkips(before: string, rest: string, cut: char -> bool)
    requires All(before, cut)
    ensures TrimLeft(before + rest, cut) == TrimLeft(rest, cut)
  {
    if before == "" {
      assert before + rest == rest;
    } else {
      assert (before + rest)[1..] == before[1..] + rest;
      TrimLeftSkips(before[1..], rest, cut);
    }
  }

  lemma {:induction false} TrimRightSkips(rest: string, after: string, cut: char -> bool)
    requires All(after, cut)
    ensures TrimRight(rest + after, cut) == TrimRight(rest, cut)
    decreases |after|
  {
    if after == "" {
      assert rest + after == rest;
    } else {
      var n := |after| - 1;
      assert (rest + after)[..|rest + after| - 1] == rest + after[..n];
      TrimRightSkips(rest, after[..n], cut);
    }
  }

  /** Trimming both ends leaves what is between them, and nothing else. */
  lemma TrimIs(before: string, kept: string, after: string, cut: char -> bool)
    requires All(before, cut) && All(after, cut) && Bare(kept, cut)
    ensures TrimRight(TrimLeft(before + kept + after, cut), cut) == kept
  {
    assert before + kept + after == before + (kept + after);
    TrimLeftSkips(before, kept + after, cut);
    if kept == "" {
      assert kept + after == after;
      TrimLeftSkips(after, "", cut);
      assert after + "" == after;
    } else {
      TrimRightSkips(kept, after, cut);
    }
  }

  /** A stretch of a text with bare ends and nothing but characters to be cut on either side. */
  ghost predicate IsCore(s: string, from: nat, to: nat, kept: string, cut: char -> bool) {
    from <= to <= |s| && s[from..to] == kept && All(s[..from], cut) && All(s[to..], cut) && Bare(kept, cut)
  }

  ghost predicate IsTrimmed(s: string, kept: string, cut: char -> bool) {
    exists from: nat, to: nat :: IsCore(s, from, to, kept, cut)
  }

  lemma {:induction false} TrimLeftTakes(s: string, cut: char -> bool) returns (n: nat)
    ensures n <= |s| && TrimLeft(s, cut) == s[n..] && All(s[..n], cut)
  {
    if s != "" && cut(s[0]) {
      var m := TrimLeftTakes(s[1..], cut);
      n := m + 1;
      assert s[1..][..m] == s[1..n] && s[1..][m..] == s[n..];
      assert s[..n] == [s[0]] + s[1..n];
    } else {
      n := 0;
    }
  }

  /** What trimming leaves is such a stretch. */
  lemma TrimLeaves(s: string, cut: char -> bool)
    ensures IsTrimmed(s, TrimRight(TrimLeft(s, cut), cut), cut)
  {
    var left := TrimLeft(s, cut);
    var kept := TrimRight(left, cut);
    var n := TrimLeftTakes(s, cut);
    TrimLeftLength(s, cut);
    TrimRightIsPrefix(left, cut);
    assert s[n..n + |kept|] == kept;
    var after := s[n + |kept|..];
    forall i | 0 <= i < |after|
      ensures cut(after[i])
    {
      assert after[i] == left[|kept| + i];
    }
    assert IsCore(s, n, n + |kept|, kept, cut);
  }

  /** A text is characters to be cut, what trimming leaves, and such characters again; what is left
      has bare ends, and nothing else would do. */
  lemma TrimMeans(s: string, kept: string, cut: char -> bool)
    ensures TrimRight(TrimLeft(s, cut), cut) == kept <==> IsTrimmed(s, kept, cut)
  {
    hide TrimLeft, TrimRight, All, Bare;
    TrimLeaves(s, cut);
    if IsTrimmed(s, kept, cut) {
      var from: nat, to: nat :| IsCore(s, from, to, kept, cut);
      assert s == s[..from] + kept + s[to..];
      TrimIs(s[..from], kept, s[to..], cut);
    }
  }

  lemma TrimSpaceMeans(s: string, kept: string)
    ensures TrimSpace(s) == kept <==> IsTrimmed(s, kept, IsSpace)
  {
    hide TrimLeft, TrimRight, IsTrimmed, IsSpace;
    TrimMeans(s, kept, IsSpace);
  }

  // ----------------------------------------------------------- normalisation

  ghost predicate AreWords(words: seq<string>) {
    forall i :: 0 <= i < |words| ==> words[i] != "" && forall c :: c in words[i] ==> !IsSpace(c)
  }

  lemma {:induction false} FieldsAreWords(s: string)
    ensures AreWords(Fields(s))
    decreases |s|
  {
    var rest := TrimLeft(s, IsSpace);
    TrimLeftLength(s, IsSpace);
    if rest != "" {
      FieldsAreWords(rest[|Word(rest)|..]);
    }
  }

  lemma {:induction false} WordOfJoin(word: string, tail: string)
    requires forall c :: c in word ==> !IsSpace(c)
    requires tail == "" || IsSpace(tail[0])
    ensures Word(word + tail) == word
  {
    if word == "" {
      assert word + tail == tail;
    } else {
      assert (word + tail)[1..] == word[1..] + tail;
      WordOfJoin(word[1..], tail);
    }
  }

  /** Splitting on white space undoes joining with single spaces. */
  lemma {:induction false} FieldsOfJoin(words: seq<string>)
    requires AreWords(words)
    ensures Fields(Join(words)) == words
  {
    if words != [] {
      var tail := if |words| == 1 then "" else " " + Join(words[1..]);
      assert Join(words) == words[0] + tail;
      assert words[0][0] in words[0];
      WordOfJoin(words[0], tail);
      assert (words[0] + tail)[|words[0]|..] == tail;
      if |words| > 1 {
        FieldsOfJoin(words[1..]);
        assert tail[1..] == Join(words[1..]);
        assert TrimLeft(tail, IsSpace) == TrimLeft(Join(words[1..]), IsSpace);
        assert Fields(tail) == Fields(Join(words[1..]));
      }
      assert words == [words[0]] + words[1..];
    }
  }

  lemma {:induction false} JoinEnds(words: seq<string>)
    requires AreWords(words) && words != []
    ensures Join(words) != "" && !IsSpace(Join(words)[0]) && !IsSpace(Join(words)[|Join(words)| - 1])
  {
    assert words[0][0] in words[0] && words[0][|words[0]| - 1] in words[0];
    if |words| > 1 {
      JoinEnds(words[1..]);
    }
  }

  /** Runes that lower-casing leaves alone whatever the Unicode tables say. */
  ghost predicate PlainLower(s: string) {
    forall i :: 0 <= i < |s| ==> s[i] == ' ' || 'a' <= s[i] <= 'z'
  }

  /** Normalising a name whose normal form is plain lower case is idempotent. */
  lemma NormalizeIdempotent(t: Runes, s: string)
    requires PlainLower(Normalize(t, s))
    ensures Normalize(t, Normalize(t, s)) == Normalize(t, s)
  {
    var words := Fields(Lower(t, TrimSpace(s)));
    FieldsAreWords(Lower(t, TrimSpace(s)));
    var n := Join(words);
    if words != [] {
      JoinEnds(words);
    }
    TrimSpaceFixed(n);
    assert Lower(t, n) == n;
    FieldsOfJoin(words);
  }

  // ----------------------------------------------------------------- ordering

  /** Go's < on strings: bytewise, which for valid UTF-8 is by rune. */
  predicate Less(a: string, b: string) {
    if b == "" then false
    else if a == "" then true
    else a[0] < b[0] || (a[0] == b[0] && Less(a[1..], b[1..]))
  }

  lemma LessTotal(a: string, b: string)
    ensures Less(a, b) || a == b || Less(b, a)
    ensures !(Less(a, b) && Less(b, a))
    ensures !Less(a, a)
  {
    if a != "" && b != "" {
      assert a == [a[0]] + a[1..] && b == [b[0]] + b[1..];
      LessTotal(a[1..], b[1..]);
    }
  }

  lemma LessTransitive(a: string, b: string, c: string)
    requires Less(a, b) && Less(b, c)
    ensures Less(a, c)
  {
    if a != "" && a[0] == b[0] == c[0] {
      LessTransitive(a[1..], b[1..], c[1..]);
    }
  }

  /** Where two texts part: the first ends there, or has the smaller character. */
  predicate PartsBelow(a: string, b: string, k: nat) {
    k <= |a| && k < |b| && a[..k] == b[..k] && (k == |a| || a[k] < b[k])
  }

  /** One text is less than another exactly when it is a proper beginning of it or has the smaller
      character where they first differ. */
  lemma {:induction false} LessMeans(a: string, b: string)
    ensures Less(a, b) <==> exists k: nat :: PartsBelow(a, b, k)
  {
    if a == "" && b != "" {
      assert PartsBelow(a, b, 0);
    } else if a != "" && b != "" {
      LessMeans(a[1..], b[1..]);
      if a[0] < b[0] {
        assert PartsBelow(a, b, 0);
      }
      if k: nat :| a[0] == b[0] && PartsBelow(a[1..], b[1..], k) {
        assert a[..k + 1] == [a[0]] + a[1..][..k] && b[..k + 1] == [b[0]] + b[1..][..k];
        assert PartsBelow(a, b, k + 1);
      }
      if k: nat :| PartsBelow(a, b, k) && k > 0 {
        assert a[..k][0] == b[..k][0];
        assert a[1..][..k - 1] == a[..k][1..] && b[1..][..k - 1] == b[..k][1..];
        assert PartsBelow(a[1..], b[1..], k - 1);
      }
    }
  }
}
