/**
 Standard base64 with padding and strict trailing bits (sections 3.5 and 4 of
 RFC 4648).  The resolver framework writes it into a request's status and the
 client reads it back.  The text is treated in two layers: groups of digits,
 and the characters that stand for them.
 */
module Base64 {
  import opened Common

  /** A six-bit digit, or 64 for the padding character. */
  type digit = x: int | 0 <= x <= 64

  const PAD: digit := 64

  // Bytes and digits.

  function Digit0(a: byte): digit { a / 4 }

  function Digit1(a: byte, b: byte): digit { a % 4 * 16 + b / 16 }

  function Digit2(b: byte, c: byte): digit { b % 16 * 4 + c / 64 }

  function Digit3(c: byte): digit { c % 64 }

  function Digits(b: Bytes): (d: seq<digit>)
    ensures |d| == 4 * ((|b| + 2) / 3)
  {
    if |b| == 0 then []
    else if |b| == 1 then [Digit0(b[0]), Digit1(b[0], 0), PAD, PAD]
    else if |b| == 2 then [Digit0(b[0]), Digit1(b[0], b[1]), Digit2(b[1], 0), PAD]
    else [Digit0(b[0]), Digit1(b[0], b[1]), Digit2(b[1], b[2]), Digit3(b[2])] + Digits(b[3..])
  }

  function Byte0(x: digit, y: digit): byte
    requires x != PAD && y != PAD
  {
    x * 4 + y / 16
  }

  function Byte1(y: digit, z: digit): byte
    requires y != PAD && z != PAD
  {
    y % 16 * 16 + z / 4
  }

  function Byte2(z: digit, w: digit): byte
    requires z != PAD && w != PAD
  {
    z % 4 * 64 + w
  }

  /**
   Reads four digits at a time.  Padding may only end the text, and the bits it
   leaves over must be zero: that is what `Strict` adds.
   */
  function FromDigits(d: seq<digit>): (r: Option<Bytes>) {
    if |d| == 0 then Some([])
    else if |d| < 4 || d[0] == PAD || d[1] == PAD then None
    else if d[3] != PAD then
      if d[2] == PAD then None
      else
        match FromDigits(d[4..])
        case Some(tail) => Some([Byte0(d[0], d[1]), Byte1(d[1], d[2]), Byte2(d[2], d[3])] + tail)
        case None => None
    else if |d| > 4 then None
    else if d[2] == PAD then
      if d[1] % 16 == 0 then Some([Byte0(d[0], d[1])]) else None
    else
      if d[2] % 4 == 0 then Some([Byte0(d[0], d[1]), Byte1(d[1], d[2])]) else None
  }

  lemma RegroupBytes(a: byte, b: byte, c: byte)
    ensures Byte0(Digit0(a), Digit1(a, b)) == a
    ensures Byte1(Digit1(a, b), Digit2(b, c)) == b
    ensures Byte2(Digit2(b, c), Digit3(c)) == c
    ensures Digit1(a, 0) % 16 == 0
    ensures Digit2(b, 0) % 4 == 0
  {
  }

  lemma RegroupDigits(x: digit, y: digit, z: digit, w: digit)
    requires PAD !in [x, y, z, w]
    ensures Digit0(Byte0(x, y)) == x
    ensures Digit1(Byte0(x, y), Byte1(y, z)) == y
    ensures Digit2(Byte1(y, z), Byte2(z, w)) == z
    ensures Digit3(Byte2(z, w)) == w
    ensures y % 16 == 0 ==> Digit1(Byte0(x, y), 0) == y
    ensures z % 4 == 0 ==> Digit2(Byte1(y, z), 0) == z
  {
  }

  lemma FromFullGroup(x: digit, y: digit, z: digit, w: digit, rest: seq<digit>)
    requires PAD !in [x, y, z, w]
    ensures FromDigits([x, y, z, w] + rest) ==
            match FromDigits(rest)
            case Some(tail) => Some([Byte0(x, y), Byte1(y, z), Byte2(z, w)] + tail)
            case None => None
  {
    var d := [x, y, z, w] + rest;
    assert d[4..] == rest;
  }

  lemma ToFullGroup(a: byte, b: byte, c: byte, tail: Bytes)
    ensures Digits([a, b, c] + tail) ==
            [Digit0(a), Digit1(a, b), Digit2(b, c), Digit3(c)] + Digits(tail)
  {
    assert ([a, b, c] + tail)[3..] == tail;
  }

  lemma FromPaddedGroup(x: digit, y: digit, z: digit)
    requires x != PAD && y != PAD
    ensures z == PAD ==>
              FromDigits([x, y, z, PAD]) == if y % 16 == 0 then Some([Byte0(x, y)]) else None
    ensures z != PAD ==>
              FromDigits([x, y, z, PAD]) == if z % 4 == 0 then Some([Byte0(x, y), Byte1(y, z)]) else None
  {
  }

  lemma OneByteRoundTrip(a: byte)
    ensures FromDigits(Digits([a])) == Some([a])
  {
    var x, y := Digit0(a), Digit1(a, 0);
    assert Digits([a]) == [x, y, PAD, PAD];
    FromPaddedGroup(x, y, PAD);
    RegroupBytes(a, 0, 0);
  }

  lemma TwoBytesRoundTrip(a: byte, b: byte)
    ensures FromDigits(Digits([a, b])) == Some([a, b])
  {
    var x, y, z := Digit0(a), Digit1(a, b), Digit2(b, 0);
    assert Digits([a, b]) == [x, y, z, PAD];
    FromPaddedGroup(x, y, z);
    RegroupBytes(a, b, 0);
  }

  lemma {:induction false} DigitsRoundTrip(b: Bytes)
    ensures FromDigits(Digits(b)) == Some(b)
  {
    if |b| == 1 {
      assert b == [b[0]];
      OneByteRoundTrip(b[0]);
    } else if |b| == 2 {
      assert b == [b[0], b[1]];
      TwoBytesRoundTrip(b[0], b[1]);
    } else if |b| >= 3 {
      var a0, a1, a2, tail := b[0], b[1], b[2], b[3..];
      DigitsRoundTrip(tail);
      RegroupBytes(a0, a1, a2);
      ToFullGroup(a0, a1, a2, tail);
      FromFullGroup(Digit0(a0), Digit1(a0, a1), Digit2(a1, a2), Digit3(a2), Digits(tail));
      assert b == [a0, a1, a2] + tail;
    }
  }

  lemma PaddedIsCanonical(x: digit, y: digit, z: digit)
    requires x != PAD && y != PAD && FromDigits([x, y, z, PAD]).Some?
    ensures Digits(FromDigits([x, y, z, PAD]).value) == [x, y, z, PAD]
  {
    FromPaddedGroup(x, y, z);
    RegroupDigits(x, y, if z == PAD then 0 else z, 0);
  }

  lemma {:induction false} DigitsAreCanonical(d: seq<digit>)
    requires FromDigits(d).Some?
    ensures Digits(FromDigits(d).value) == d
  {
    if |d| == 0 {
    } else if d[3] == PAD {
      assert d == [d[0], d[1], d[2], PAD];
      PaddedIsCanonical(d[0], d[1], d[2]);
    } else {
      var x, y, z, w, rest := d[0], d[1], d[2], d[3], d[4..];
      assert d == [x, y, z, w] + rest;
      FromFullGroup(x, y, z, w, rest);
      DigitsAreCanonical(rest);
      RegroupDigits(x, y, z, w);
      ToFullGroup(Byte0(x, y), Byte1(y, z), Byte2(z, w), FromDigits(rest).value);
    }
  }

  // Digits and characters.

  /** Table 1 of RFC 4648. */
  function Symbol(i: digit): (c: char) {
    if i < 26 then 'A' + i as char
    else if i < 52 then 'a' + (i - 26) as char
    else if i < 62 then '0' + (i - 52) as char
    else if i == 62 then '+'
    else if i == 63 then '/'
    else '='
  }

  const UPPER := "ABCDEFGHIJKLMNOPQRSTUVWXYZ"
  const LOWER := "abcdefghijklmnopqrstuvwxyz"
  const REST := "0123456789+/="

  lemma UpperInOrder(i: nat)
    requires i < 26
    ensures Symbol(i) == UPPER[i]
  {
  }

  lemma LowerInOrder(i: nat)
    requires i < 26
    ensures Symbol(26 + i) == LOWER[i]
  {
  }

  lemma RestInOrder(i: nat)
    requires i < 13
    ensures Symbol(52 + i) == REST[i]
  {
  }

  /** The alphabet in order, and the padding character after it. */
  lemma AlphabetInOrder(i: digit)
    ensures |UPPER + LOWER + REST| == 65 && Symbol(i) == (UPPER + LOWER + REST)[i]
  {
    if i < 26 {
      UpperInOrder(i);
    } else if i < 52 {
      LowerInOrder(i - 26);
    } else {
      RestInOrder(i - 52);
    }
  }

  function Value(c: char): (v: Option<digit>) {
    if 'A' <= c <= 'Z' then Some((c - 'A') as int)
    else if 'a' <= c <= 'z' then Some((c - 'a') as int + 26)
    else if '0' <= c <= '9' then Some((c - '0') as int + 52)
    else if c == '+' then Some(62)
    else if c == '/' then Some(63)
    else if c == '=' then Some(PAD)
    else None
  }

  lemma SymbolsAreDistinct(i: digit)
    ensures Value(Symbol(i)) == Some(i)
    ensures Symbol(i) != '\r' && Symbol(i) != '\n'
  {
  }

  lemma ValuesAreDistinct(c: char)
    requires Value(c).Some?
    ensures Symbol(Value(c).value) == c
  {
  }

  function Render(d: seq<digit>): (s: string)
    ensures |s| == |d|
  {
    if d == [] then "" else [Symbol(d[0])] + Render(d[1..])
  }

  /** Go's decoder skips carriage returns and line feeds wherever they stand. */
  function StripNewlines(s: string): (t: string) {
    if s == "" then ""
    else if s[0] == '\r' || s[0] == '\n' then StripNewlines(s[1..])
    else [s[0]] + StripNewlines(s[1..])
  }

  function Parse(s: string): (d: Option<seq<digit>>) {
    if s == "" then Some([])
    else if s[0] == '\r' || s[0] == '\n' then Parse(s[1..])
    else
      match (Value(s[0]), Parse(s[1..]))
      case (Some(i), Some(rest)) => Some([i] + rest)
      case _ => None
  }

  lemma {:induction false} ParseInvertsRender(d: seq<digit>)
    ensures Parse(Render(d)) == Some(d)
    ensures StripNewlines(Render(d)) == Render(d)
  {
    if d != [] {
      SymbolsAreDistinct(d[0]);
      ParseInvertsRender(d[1..]);
      var s := Render(d);
      assert s[0] == Symbol(d[0]) && s[1..] == Render(d[1..]);
      assert d == [d[0]] + d[1..];
    }
  }

  lemma {:induction false} ParseReadsStripped(s: string, d: seq<digit>)
    ensures Parse(s) == Some(d) <==> StripNewlines(s) == Render(d)
    decreases |s|
  {
    if s == "" {
    } else if s[0] == '\r' || s[0] == '\n' {
      ParseReadsStripped(s[1..], d);
    } else if d != [] {
      ParseReadsStripped(s[1..], d[1..]);
      assert StripNewlines(s)[1..] == StripNewlines(s[1..]);
      assert Render(d)[1..] == Render(d[1..]);
      assert d == [d[0]] + d[1..];
      SymbolsAreDistinct(d[0]);
      if Value(s[0]).Some? {
        ValuesAreDistinct(s[0]);
      }
    }
  }

  // What the digits stand for, without the functions that cut them.

  /** A byte string as a number, its first byte most significant. */
  function FromBytes(b: Bytes): nat {
    if b == [] then 0 else 256 * FromBytes(b[..|b| - 1]) + b[|b| - 1]
  }

  /** A text as a number, its first digit most significant. */
  function FromSymbols(d: seq<digit>): nat {
    if d == [] then 0 else 64 * FromSymbols(d[..|d| - 1]) + d[|d| - 1]
  }

  /** The three bytes of a group, and the four digits they become, are the same 24 bits. */
  lemma GroupKeepsBits(a: byte, b: byte, c: byte)
    ensures FromSymbols(Digits([a, b, c])) == FromBytes([a, b, c])
  {
    assert [a, b, c][..2] == [a, b] && [a, b][..1] == [a] && [a][..0] == [];
    assert FromBytes([a]) == a && FromBytes([a, b]) == 256 * a + b;
    var x: int, y: int, z: int, w: int := Digit0(a), Digit1(a, b), Digit2(b, c), Digit3(c);
    assert Digits([a, b, c]) == [x, y, z, w] by { assert [a, b, c][3..] == []; }
    assert [x, y, z, w][..3] == [x, y, z] && [x, y, z][..2] == [x, y] && [x, y][..1] == [x] && [x][..0] == [];
    assert FromSymbols([x]) == x && FromSymbols([x, y]) == 64 * x + y;
    assert FromSymbols([x, y, z]) == 64 * (64 * x + y) + z;
  }

  /**
   Groups are encoded one by one; the last one, if short, is filled up with
   zeros and keeps only the digits that its bytes reach.
   */
  lemma GroupByGroup(a: byte, b: byte, c: byte, tail: Bytes)
    ensures Digits([a, b, c] + tail) == Digits([a, b, c]) + Digits(tail)
    ensures Digits([a, b]) == Digits([a, b, 0])[..3] + [PAD]
    ensures Digits([a]) == Digits([a, 0, 0])[..2] + [PAD, PAD]
  {
    ToFullGroup(a, b, c, tail);
    ToFullGroup(a, b, c, []);
    ToFullGroup(a, b, 0, []);
    ToFullGroup(a, 0, 0, []);
    assert [a, b, c] + [] == [a, b, c] && [a, b, 0] + [] == [a, b, 0] && [a, 0, 0] + [] == [a, 0, 0];
  }

  // The two layers together.

  /** `base64.StdEncoding.Strict().EncodeToString`. */
  function Encode(b: Bytes): (s: string)
    ensures s == "" <==> b == []
  {
    Render(Digits(b))
  }

  /** `base64.StdEncoding.Strict().DecodeString`, with the error's text left out. */
  function Decode(s: string): (r: Option<Bytes>) {
    match Parse(s)
    case Some(d) => FromDigits(d)
    case None => None
  }

  /** Decoding undoes encoding, for all byte strings. */
  lemma RoundTrip(b: Bytes)
    ensures Decode(Encode(b)) == Some(b)
  {
    ParseInvertsRender(Digits(b));
    DigitsRoundTrip(b);
  }

  /**
   The strict decoder accepts exactly the canonical encodings, up to line
   breaks: each accepted text is the encoding of what it decodes to.
   */
  lemma DecodesExactlyEncodings(s: string, b: Bytes)
    ensures Decode(s) == Some(b) <==> StripNewlines(s) == Encode(b)
  {
    ParseReadsStripped(s, Digits(b));
    DigitsRoundTrip(b);
    if Decode(s) == Some(b) {
      DigitsAreCanonical(Parse(s).value);
    }
  }

  lemma EncodeIsInjective(a: Bytes, b: Bytes)
    requires Encode(a) == Encode(b)
    ensures a == b
  {
    RoundTrip(a);
    RoundTrip(b);
  }
}
