/** Standard base64 with padding, as section 4 of RFC 4648 defines it. */
module Base64 {
  import opened Basics

  const PAD: Byte := '=' as int as Byte

  /** The alphabet of Table 1. */
  function Symbol(n: int): Byte
    requires 0 <= n < 64
  {
    if n < 26 then (65 + n) as Byte
    else if n < 52 then (71 + n) as Byte
    else if n < 62 then (n - 4) as Byte
    else if n == 62 then 43
    else 47
  }

  function Digit(b: Byte): (d: Option<int>)
    ensures d.Some? ==> 0 <= d.value < 64
  {
    var n := b as int;
    if 65 <= n <= 90 then Some(n - 65)
    else if 97 <= n <= 122 then Some(n - 71)
    else if 48 <= n <= 57 then Some(n + 4)
    else if n == 43 then Some(62)
    else if n == 47 then Some(63)
    else None
  }

  function Encode(content: Bytes): Bytes
    decreases |content|
  {
    if content == [] then []
    else
      var a := content[0] as int;
      if |content| == 1 then [Symbol(a / 4), Symbol(a % 4 * 16), PAD, PAD]
      else
        var b := content[1] as int;
        if |content| == 2 then [Symbol(a / 4), Symbol(a % 4 * 16 + b / 16), Symbol(b % 16 * 4), PAD]
        else
          var c := content[2] as int;
          [Symbol(a / 4), Symbol(a % 4 * 16 + b / 16), Symbol(b % 16 * 4 + c / 64), Symbol(c % 64)] + Encode(content[3..])
  }

  /** Line breaks are skipped before anything else. */
  function DropBreaks(text: Bytes): Bytes {
    if text == [] then []
    else if text[0] == 10 || text[0] == 13 then DropBreaks(text[1..])
    else [text[0]] + DropBreaks(text[1..])
  }

  function Decode(text: Bytes): Option<Bytes> {
    DecodeQuads(DropBreaks(text))
  }

  /** The bytes of one padded or full group, if its symbols are in the alphabet. Bits that padding
      leaves over are ignored, as a decoder that is not strict does. */
  function DecodeQuad(w: Byte, x: Byte, y: Byte, z: Byte): Option<Bytes> {
    if Digit(w).None? || Digit(x).None? then None
    else
      var d0, d1 := Digit(w).value, Digit(x).value;
      var a := (d0 * 4 + d1 / 16) as Byte;
      if y == PAD then if z == PAD then Some([a]) else None
      else if Digit(y).None? then None
      else
        var d2 := Digit(y).value;
        var b := (d1 % 16 * 16 + d2 / 4) as Byte;
        if z == PAD then Some([a, b])
        else if Digit(z).None? then None
        else Some([a, b, (d2 % 4 * 64 + Digit(z).value) as Byte])
  }

  function DecodeQuads(text: Bytes): Option<Bytes> {
    if text == [] then Some([])
    else if |text| < 4 then None
    else
      match DecodeQuad(text[0], text[1], text[2], text[3])
      case None => None
      case Some(bytes) =>
        if |bytes| < 3 then if |text| == 4 then Some(bytes) else None
        else match DecodeQuads(text[4..])
          case None => None
          case Some(rest) => Some(bytes + rest)
  }

  lemma DigitOfSymbol(n: int)
    requires 0 <= n < 64
    ensures Digit(Symbol(n)) == Some(n)
    ensures Symbol(n) != PAD && Symbol(n) != 10 && Symbol(n) != 13
  {}

  lemma {:induction false} NoBreaks(text: Bytes)
    requires forall i :: 0 <= i < |text| ==> text[i] != 10 && text[i] != 13
    ensures DropBreaks(text) == text
  {
    if text != [] {
      NoBreaks(text[1..]);
    }
  }

  lemma {:induction false} EncodeIsPlain(content: Bytes)
    ensures forall i :: 0 <= i < |Encode(content)| ==>
      Encode(content)[i] != 10 && Encode(content)[i] != 13 && Encode(content)[i] < 128
    decreases |content|
  {
    if |content| >= 3 {
      EncodeIsPlain(content[3..]);
    }
  }

  /** Twenty-four bits split into four sixes and joined again. */
  lemma Split(a: int, b: int, c: int)
    requires 0 <= a < 256 && 0 <= b < 256 && 0 <= c < 256
    ensures var d1, d2 := a % 4 * 16 + b / 16, b % 16 * 4 + c / 64;
      && 0 <= a / 4 < 64 && 0 <= d1 < 64 && 0 <= d2 < 64 && 0 <= c % 64 < 64
      && a / 4 * 4 + d1 / 16 == a && d1 % 16 * 16 + d2 / 4 == b && d2 % 4 * 64 + c % 64 == c
  {
    var a3, b4 := a % 4, b / 16;
    var b3, c4 := b % 16, c / 64;
    assert (a3 * 16 + b4) / 16 == a3 && (a3 * 16 + b4) % 16 == b4;
    assert (b3 * 4 + c4) / 4 == b3 && (b3 * 4 + c4) % 4 == c4;
  }

  lemma FullQuad(a: int, b: int, c: int)
    requires 0 <= a < 256 && 0 <= b < 256 && 0 <= c < 256
    ensures DecodeQuad(Symbol(a / 4), Symbol(a % 4 * 16 + b / 16), Symbol(b % 16 * 4 + c / 64), Symbol(c % 64))
      == Some([a as Byte, b as Byte, c as Byte])
  {
    hide Symbol, Digit;
    Split(a, b, c);
    DigitOfSymbol(a / 4);
    DigitOfSymbol(a % 4 * 16 + b / 16);
    DigitOfSymbol(b % 16 * 4 + c / 64);
    DigitOfSymbol(c % 64);
  }

  lemma PaddedQuads(a: int, b: int)
    requires 0 <= a < 256 && 0 <= b < 256
    ensures DecodeQuad(Symbol(a / 4), Symbol(a % 4 * 16), PAD, PAD) == Some([a as Byte])
    ensures DecodeQuad(Symbol(a / 4), Symbol(a % 4 * 16 + b / 16), Symbol(b % 16 * 4), PAD) == Some([a as Byte, b as Byte])
  {
    hide Symbol, Digit;
    Split(a, b, 0);
    Split(a, 0, 0);
    DigitOfSymbol(a / 4);
    DigitOfSymbol(a % 4 * 16);
    DigitOfSymbol(a % 4 * 16 + b / 16);
    DigitOfSymbol(b % 16 * 4);
  }

  lemma {:induction false} EncodeLength(content: Bytes)
    ensures |Encode(content)| == (|content| + 2) / 3 * 4
    decreases |content|
  {
    hide Symbol;
    if |content| >= 3 {
      EncodeLength(content[3..]);
    }
  }

  lemma DecodeGroup(w: Byte, x: Byte, y: Byte, z: Byte, rest: Bytes, bytes: Bytes, others: Bytes)
    requires DecodeQuad(w, x, y, z) == Some(bytes) && |bytes| == 3 && DecodeQuads(rest) == Some(others)
    ensures DecodeQuads([w, x, y, z] + rest) == Some(bytes + others)
  {
    hide DecodeQuad;
    assert ([w, x, y, z] + rest)[4..] == rest;
  }

  lemma {:induction false} QuadsOfEncode(content: Bytes)
    ensures DecodeQuads(Encode(content)) == Some(content)
    decreases |content|
  {
    hide DecodeQuad, Symbol;
    if |content| == 1 {
      PaddedQuads(content[0] as int, 0);
      assert content == [content[0]];
    } else if |content| == 2 {
      PaddedQuads(content[0] as int, content[1] as int);
      assert content == [content[0], content[1]];
    } else if |content| >= 3 {
      hide DecodeQuads;
      var a, b, c := content[0] as int, content[1] as int, content[2] as int;
      FullQuad(a, b, c);
      QuadsOfEncode(content[3..]);
      Split(a, b, c);
      DecodeGroup(Symbol(a / 4), Symbol(a % 4 * 16 + b / 16), Symbol(b % 16 * 4 + c / 64), Symbol(c % 64),
        Encode(content[3..]), [content[0], content[1], content[2]], content[3..]);
      assert content == [content[0], content[1], content[2]] + content[3..];
    }
  }

  /** Decoding undoes encoding, and the encoding is four bytes for every three or part of three. */
  lemma RoundTrip(content: Bytes)
    ensures Decode(Encode(content)) == Some(content)
    ensures |Encode(content)| == (|content| + 2) / 3 * 4
  {
    EncodeIsPlain(content);
    NoBreaks(Encode(content));
    QuadsOfEncode(content);
    EncodeLength(content);
  }

  const ALPHABET := "ABCDEFGHIJKLMNOPQRSTUVWXYZ" + "abcdefghijklmnopqrstuvwxyz" + "0123456789+/"

  lemma UpperAt(n: nat)
    requires n < 26
    ensures "ABCDEFGHIJKLMNOPQRSTUVWXYZ"[n] as int == 65 + n
  {}

  lemma LowerAt(n: nat)
    requires n < 26
    ensures "abcdefghijklmnopqrstuvwxyz"[n] as int == 97 + n
  {}

  lemma OthersAt(n: nat)
    requires n < 12
    ensures "0123456789+/"[n] as int == if n < 10 then 48 + n else if n == 10 then 43 else 47
  {}

  lemma SymbolIsOfTheAlphabet(n: int)
    requires 0 <= n < 64
    ensures |ALPHABET| == 64 && Symbol(n) as int == ALPHABET[n] as int
  {
    if n < 26 {
      UpperAt(n);
    } else if n < 52 {
      LowerAt(n - 26);
    } else {
      OthersAt(n - 52);
    }
  }

  /** Three bytes read as one number of twenty-four bits; bytes past the end are zero. */
  function Group(content: Bytes, g: nat): int {
    65536 * Octet(content, 3 * g) + 256 * Octet(content, 3 * g + 1) + Octet(content, 3 * g + 2)
  }

  function Octet(content: Bytes, k: nat): int {
    if k < |content| then content[k] as int else 0
  }

  /** The character of the alphabet for a six-bit digit, or the padding when the group ends before. */
  predicate Shows(text: Bytes, k: nat, digit: int, inside: bool) {
    && k < |text|
    && 0 <= digit < |ALPHABET|
    && text[k] as int == if inside then ALPHABET[digit] as int else '=' as int
  }

  lemma By64(n: int, q: int, r: int)
    requires n == 64 * q + r && 0 <= r < 64
    ensures n / 64 == q && n % 64 == r
  {}

  lemma By4096(n: int, q: int, r: int)
    requires n == 4096 * q + r && 0 <= r < 4096
    ensures n / 4096 == q && n % 4096 == r
  {}

  lemma By262144(n: int, q: int, r: int)
    requires n == 262144 * q + r && 0 <= r < 262144
    ensures n / 262144 == q && n % 262144 == r
  {}

  lemma GroupDigits(a: int, b: int, c: int)
    requires 0 <= a < 256 && 0 <= b < 256 && 0 <= c < 256
    ensures var n := 65536 * a + 256 * b + c;
      && n / 262144 == a / 4
      && n / 4096 % 64 == a % 4 * 16 + b / 16
      && n / 64 % 64 == b % 16 * 4 + c / 64
      && n % 64 == c % 64
  {
    var n := 65536 * a + 256 * b + c;
    var a1, a0, b1, b0, c1, c0 := a / 4, a % 4, b / 16, b % 16, c / 64, c % 64;
    By262144(n, a1, 65536 * a0 + 256 * b + c);
    By4096(n, 16 * a + b1, 256 * b0 + c);
    By64(16 * a + b1, a1, 16 * a0 + b1);
    By64(n, 1024 * a + 4 * b + c1, c0);
    By64(1024 * a + 4 * b + c1, 16 * a + b1, 4 * b0 + c1);
  }

  lemma ShowsSymbol(text: Bytes, k: nat, digit: int, same: int)
    requires k < |text| && 0 <= digit < 64 && text[k] == Symbol(digit) && same == digit
    ensures Shows(text, k, same, true)
  {
    hide Symbol;
    SymbolIsOfTheAlphabet(digit);
  }

  lemma ShowsPad(text: Bytes, k: nat, digit: int)
    requires k < |text| && 0 <= digit < 64 && text[k] == PAD
    ensures Shows(text, k, digit, false)
  {
    SymbolIsOfTheAlphabet(digit);
  }

  ghost predicate ShowsGroup(text: Bytes, content: Bytes, g: nat) {
    var n := Group(content, g);
    && Shows(text, 4 * g, n / 262144, true)
    && Shows(text, 4 * g + 1, n / 4096 % 64, true)
    && Shows(text, 4 * g + 2, n / 64 % 64, 3 * g + 1 < |content|)
    && Shows(text, 4 * g + 3, n % 64, 3 * g + 2 < |content|)
  }

  lemma FirstGroup(content: Bytes)
    requires content != []
    ensures ShowsGroup(Encode(content), content, 0)
  {
    hide Symbol, Shows;
    var text := Encode(content);
    var a, b, c := Octet(content, 0), Octet(content, 1), Octet(content, 2);
    GroupDigits(a, b, c);
    Split(a, b, c);
    var n := Group(content, 0);
    ShowsSymbol(text, 0, a / 4, n / 262144);
    ShowsSymbol(text, 1, a % 4 * 16 + b / 16, n / 4096 % 64);
    if |content| > 1 {
      ShowsSymbol(text, 2, b % 16 * 4 + c / 64, n / 64 % 64);
    } else {
      ShowsPad(text, 2, n / 64 % 64);
    }
    if |content| > 2 {
      ShowsSymbol(text, 3, c % 64, n % 64);
    } else {
      ShowsPad(text, 3, n % 64);
    }
  }

  lemma ShowsLater(head: Bytes, rest: Bytes, k: nat, digit: int, inside: bool)
    requires |head| == 4 && Shows(rest, k, digit, inside)
    ensures Shows(head + rest, k + 4, digit, inside)
  {}

  lemma LaterGroup(head: Bytes, rest: Bytes, content: Bytes, g: nat)
    requires |head| == 4 && |content| >= 3 && ShowsGroup(rest, content[3..], g)
    ensures ShowsGroup(head + rest, content, g + 1)
  {
    hide Shows;
    var others := content[3..];
    var n := Group(others, g);
    assert n == Group(content, g + 1) by {
      assert Octet(others, 3 * g) == Octet(content, 3 * g + 3);
      assert Octet(others, 3 * g + 1) == Octet(content, 3 * g + 4);
      assert Octet(others, 3 * g + 2) == Octet(content, 3 * g + 5);
    }
    ShowsLater(head, rest, 4 * g, n / 262144, true);
    ShowsLater(head, rest, 4 * g + 1, n / 4096 % 64, true);
    ShowsLater(head, rest, 4 * g + 2, n / 64 % 64, 3 * g + 1 < |others|);
    ShowsLater(head, rest, 4 * g + 3, n % 64, 3 * g + 2 < |others|);
  }

  /** Every group of three bytes, the last filled up with zeros, becomes the four digits of its
      number in base 64, written in the alphabet; the digits past the content are padding. */
  lemma {:induction false} EncodeIsBaseSixtyFour(content: Bytes, g: nat)
    requires 3 * g < |content|
    ensures ShowsGroup(Encode(content), content, g)
    decreases |content|
  {
    hide Symbol, ShowsGroup;
    if g > 0 {
      var text, rest := Encode(content), Encode(content[3..]);
      EncodeIsBaseSixtyFour(content[3..], g - 1);
      assert text == text[..4] + rest;
      LaterGroup(text[..4], rest, content, g - 1);
    } else {
      FirstGroup(content);
    }
  }
}
