/** The string codecs of compiler/prelude/prelude.js and jsmapping.js: Go strings are JavaScript strings
    of bytes, JavaScript's own strings are UTF-16. */
module Utf {
  import opened JsNumber

  type Byte = x: int | 0 <= x < 256
  type Unit = x: int | 0 <= x < 0x1_0000
  type Rune = int

  const BAD: Rune := 0xFFFD

  /** charCodeAt: beyond the end it is NaN, here -1, which no test takes for a byte. */
  function CharCodeAt(s: seq<Byte>, i: nat): int {
    if i < |s| then s[i] else -1
  }

  predicate Tail(c: int) {
    0x80 <= c < 0xC0
  }

  /** $decodeRune at the start of s: the rune and the number of bytes it takes. */
  function DecodeRune(s: seq<Byte>): (d: (Rune, nat))
    requires s != []
    ensures 1 <= d.1 <= |s|
  {
    var c0 := s[0];
    if c0 < 0x80 then (c0, 1)
    else if c0 < 0xC0 then (BAD, 1)
    else
      var c1 := CharCodeAt(s, 1);
      if !Tail(c1) then (BAD, 1)
      else if c0 < 0xE0 then
        var r := Or(Shl(And(c0, 0x1F), 6), And(c1, 0x3F));
        if r <= 0x7F then (BAD, 1) else (r, 2)
      else
        var c2 := CharCodeAt(s, 2);
        if !Tail(c2) then (BAD, 1)
        else if c0 < 0xF0 then
          var r := Or(Or(Shl(And(c0, 0x0F), 12), Shl(And(c1, 0x3F), 6)), And(c2, 0x3F));
          if r <= 0x7FF then (BAD, 1) else if 0xD800 <= r <= 0xDFFF then (BAD, 1) else (r, 3)
        else
          var c3 := CharCodeAt(s, 3);
          if !Tail(c3) then (BAD, 1)
          else if c0 < 0xF8 then
            var r := Or(Or(Or(Shl(And(c0, 0x07), 18), Shl(And(c1, 0x3F), 12)), Shl(And(c2, 0x3F), 6)), And(c3, 0x3F));
            if r <= 0xFFFF || 0x10FFFF < r then (BAD, 1) else (r, 4)
          else (BAD, 1)
  }

  predicate Surrogate(r: Rune) {
    0xD800 <= r <= 0xDFFF
  }

  /** The Unicode scalar values. */
  predicate Scalar(r: Rune) {
    0 <= r <= 0x10FFFF && !Surrogate(r)
  }

  function Fix(r: Rune): Rune {
    if r < 0 || r > 0x10FFFF || Surrogate(r) then BAD else r
  }

  lemma FixIs(r: Rune)
    ensures Fix(r) == if 0 <= r <= 0xD7FF || 0xE000 <= r <= 0x10FFFF then r else 0xFFFD
  { }

  /** String.fromCharCode of a number: its low 16 bits. */
  function CharCode(x: int): Unit {
    x % 0x1_0000
  }

  /** $encodeRune. */
  function EncodeRune(rune: Rune): (s: seq<Byte>)
    ensures s != []
  {
    hide Or, And, Sar, CharCode;
    var r := Fix(rune);
    ByteCodes(r);
    if r <= 0x7F then [CharCode(r)]
    else if r <= 0x7FF then [CharCode(Or(0xC0, Sar(r, 6))), CharCode(Or(0x80, And(r, 0x3F)))]
    else if r <= 0xFFFF then
      [CharCode(Or(0xE0, Sar(r, 12))), CharCode(Or(0x80, And(Sar(r, 6), 0x3F))), CharCode(Or(0x80, And(r, 0x3F)))]
    else
      [CharCode(Or(0xF0, Sar(r, 18))), CharCode(Or(0x80, And(Sar(r, 12), 0x3F))),
       CharCode(Or(0x80, And(Sar(r, 6), 0x3F))), CharCode(Or(0x80, And(r, 0x3F)))]
  }

  // ----- the bit operations as arithmetic -----

  lemma SmallPow()
    ensures Pow2(3) == 8 && Pow2(4) == 16 && Pow2(5) == 32 && Pow2(6) == 64 && Pow2(12) == 4096 && Pow2(18) == 0x4_0000
  {
    assert Pow2(3) == 8;
    Pow2Add(3, 1);
    assert Pow2(1) == 2;
    Pow2Add(4, 1);
    Pow2Add(3, 3);
    Pow2Add(6, 6);
    Pow2Add(12, 6);
  }

  lemma AndMask(x: int, k: nat)
    requires 0 <= x < 0x8000_0000 && 0 < k < 31 && Pow2(k) <= 0x8000_0000
    ensures And(x, Pow2(k) - 1) == x % Pow2(k)
  {
    hide BitAnd, Pow2;
    AndIsMod(x, k);
    DivMod(x, Pow2(k));
    DivBounds(x, Pow2(k));
    MulMono(Pow2(k), 0, x / Pow2(k));
  }

  /** `a << k | b` with b below 2^k. */
  lemma OrSum(a: int, b: int, k: nat)
    requires 0 <= a && 0 <= b < Pow2(k) && a * Pow2(k) + b < 0x8000_0000
    ensures Or(a * Pow2(k), b) == a * Pow2(k) + b
  {
    hide BitOr, Pow2;
    MulMono(a, 0, Pow2(k));
    OrIsSum(a, b, k);
  }

  lemma ShlSmall(a: int, k: nat)
    requires 0 <= a && k < 32 && a * Pow2(k) < 0x8000_0000
    ensures Shl(a, k) == a * Pow2(k)
  {
    hide Pow2;
    MulMono(a, 1, Pow2(k));
  }

  lemma SarSmall(x: int, k: nat)
    requires 0 <= x < 0x8000_0000 && k < 32
    ensures Sar(x, k) == x / Pow2(k)
  { }

  /** What $decodeRune puts together. */
  lemma Joined(c0: int, c1: int, c2: int, c3: int)
    requires 0 <= c0 < 256 && Tail(c1) && Tail(c2) && Tail(c3)
    ensures Or(Shl(And(c0, 0x1F), 6), And(c1, 0x3F)) == c0 % 32 * 64 + c1 % 64
    ensures Or(Or(Shl(And(c0, 0x0F), 12), Shl(And(c1, 0x3F), 6)), And(c2, 0x3F))
            == c0 % 16 * 4096 + c1 % 64 * 64 + c2 % 64
    ensures Or(Or(Or(Shl(And(c0, 0x07), 18), Shl(And(c1, 0x3F), 12)), Shl(And(c2, 0x3F), 6)), And(c3, 0x3F))
         == c0 % 8 * 0x4_0000 + c1 % 64 * 4096 + c2 % 64 * 64 + c3 % 64
  {
    hide And, Or, Shl, Pow2;
    SmallPow();
    AndMask(c0, 5); AndMask(c0, 4); AndMask(c0, 3);
    AndMask(c1, 6); AndMask(c2, 6); AndMask(c3, 6);
    ShlSmall(c0 % 32, 6); ShlSmall(c0 % 16, 12); ShlSmall(c0 % 8, 18);
    ShlSmall(c1 % 64, 6); ShlSmall(c1 % 64, 12); ShlSmall(c2 % 64, 6);
    OrSum(c0 % 32, c1 % 64, 6);
    OrSum(c0 % 16, c1 % 64 * 64, 12);
    OrSum(c0 % 16 * 64 + c1 % 64, c2 % 64, 6);
    OrSum(c0 % 8, c1 % 64 * 4096, 18);
    OrSum(c0 % 8 * 64 + c1 % 64, c2 % 64 * 64, 12);
    OrSum(c0 % 8 * 4096 + c1 % 64 * 64 + c2 % 64, c3 % 64, 6);
  }

  /** What $encodeRune takes apart. */
  lemma Apart(r: int)
    requires 0 <= r <= 0x10FFFF
    ensures r <= 0x7FF ==> Or(0xC0, Sar(r, 6)) == 0xC0 + r / 64
    ensures r <= 0xFFFF ==> Or(0xE0, Sar(r, 12)) == 0xE0 + r / 4096
    ensures Or(0xF0, Sar(r, 18)) == 0xF0 + r / 0x4_0000
    ensures Or(0x80, And(r, 0x3F)) == 0x80 + r % 64
    ensures Or(0x80, And(Sar(r, 6), 0x3F)) == 0x80 + r / 64 % 64
    ensures Or(0x80, And(Sar(r, 12), 0x3F)) == 0x80 + r / 4096 % 64
  {
    hide And, Or, Sar, Pow2;
    SmallPow();
    SarSmall(r, 6); SarSmall(r, 12); SarSmall(r, 18);
    AndMask(r, 6); AndMask(r / 64, 6); AndMask(r / 4096, 6);
    if r <= 0x7FF { OrSum(6, r / 64, 5); }
    if r <= 0xFFFF { OrSum(14, r / 4096, 4); }
    OrSum(30, r / 0x4_0000, 3);
    OrSum(2, r % 64, 6);
    OrSum(2, r / 64 % 64, 6);
    OrSum(2, r / 4096 % 64, 6);
  }

  /** Everything that $encodeRune passes to String.fromCharCode is a byte. */
  lemma ByteCodes(r: int)
    requires 0 <= r <= 0x10FFFF
    ensures r <= 0x7F ==> CharCode(r) < 256
    ensures r <= 0x7FF ==> CharCode(Or(0xC0, Sar(r, 6))) < 256
    ensures r <= 0xFFFF ==> CharCode(Or(0xE0, Sar(r, 12))) < 256
    ensures CharCode(Or(0xF0, Sar(r, 18))) < 256 && CharCode(Or(0x80, And(r, 0x3F))) < 256
    ensures CharCode(Or(0x80, And(Sar(r, 6), 0x3F))) < 256 && CharCode(Or(0x80, And(Sar(r, 12), 0x3F))) < 256
  {
    hide Or, And, Sar;
    Apart(r);
  }

  // ----- UTF-8 by its grammar -----

  /** The length of the sequence that section 4 of RFC 3629 allows at the start of s; 0 when there is
      none. */
  function Width(s: seq<Byte>): (w: nat)
    ensures w <= |s|
  {
    WidthOf(CharCodeAt(s, 0), CharCodeAt(s, 1), CharCodeAt(s, 2), CharCodeAt(s, 3))
  }

  function WidthOf(c0: int, c1: int, c2: int, c3: int): nat {
    if 0x00 <= c0 <= 0x7F then 1
    else if 0xC2 <= c0 <= 0xDF && Tail(c1) then 2
    else if c0 == 0xE0 && 0xA0 <= c1 <= 0xBF && Tail(c2) then 3
    else if (0xE1 <= c0 <= 0xEC || 0xEE <= c0 <= 0xEF) && Tail(c1) && Tail(c2) then 3
    else if c0 == 0xED && 0x80 <= c1 <= 0x9F && Tail(c2) then 3
    else if c0 == 0xF0 && 0x90 <= c1 <= 0xBF && Tail(c2) && Tail(c3) then 4
    else if 0xF1 <= c0 <= 0xF3 && Tail(c1) && Tail(c2) && Tail(c3) then 4
    else if c0 == 0xF4 && 0x80 <= c1 <= 0x8F && Tail(c2) && Tail(c3) then 4
    else 0
  }

  predicate ValidUtf8(s: seq<Byte>) {
    s == [] || (Width(s) > 0 && ValidUtf8(s[Width(s)..]))
  }

  function Join2(c0: int, c1: int): int {
    c0 % 32 * 64 + c1 % 64
  }

  function Join3(c0: int, c1: int, c2: int): int {
    c0 % 16 * 4096 + c1 % 64 * 64 + c2 % 64
  }

  function Join4(c0: int, c1: int, c2: int, c3: int): int {
    c0 % 8 * 0x4_0000 + c1 % 64 * 4096 + c2 % 64 * 64 + c3 % 64
  }

  /** $decodeRune and $encodeRune in arithmetic. */
  function Decoded(c0: int, c1: int, c2: int, c3: int): (Rune, nat) {
    if c0 < 0x80 then (c0, 1)
    else if c0 < 0xC0 || !Tail(c1) then (BAD, 1)
    else if c0 < 0xE0 then
      var r := Join2(c0, c1);
      if r <= 0x7F then (BAD, 1) else (r, 2)
    else if !Tail(c2) then (BAD, 1)
    else if c0 < 0xF0 then
      var r := Join3(c0, c1, c2);
      if r <= 0x7FF || Surrogate(r) then (BAD, 1) else (r, 3)
    else if !Tail(c3) || c0 >= 0xF8 then (BAD, 1)
    else
      var r := Join4(c0, c1, c2, c3);
      if r <= 0xFFFF || 0x10FFFF < r then (BAD, 1) else (r, 4)
  }

  function Encoded(r: Rune): seq<int>
    requires Scalar(r)
  {
    if r <= 0x7F then [r]
    else if r <= 0x7FF then [0xC0 + r / 64, 0x80 + r % 64]
    else if r <= 0xFFFF then [0xE0 + r / 4096, 0x80 + r / 64 % 64, 0x80 + r % 64]
    else [0xF0 + r / 0x4_0000, 0x80 + r / 4096 % 64, 0x80 + r / 64 % 64, 0x80 + r % 64]
  }

  lemma DecodeIs(s: seq<Byte>)
    requires s != []
    ensures DecodeRune(s) == Decoded(s[0], CharCodeAt(s, 1), CharCodeAt(s, 2), CharCodeAt(s, 3))
  {
    hide And, Or, Shl;
    var c0, c1, c2, c3 := s[0], CharCodeAt(s, 1), CharCodeAt(s, 2), CharCodeAt(s, 3);
    if Tail(c1) { Joined(c0, c1, if Tail(c2) then c2 else 0x80, if Tail(c3) then c3 else 0x80); }
  }

  lemma EncodeIs(r: Rune)
    ensures EncodeRune(r) == Encoded(Fix(r))
  {
    hide And, Or, Sar, CharCode;
    Apart(Fix(r));
    SmallCode(Encoded(Fix(r)));
  }

  lemma SmallCode(s: seq<int>)
    ensures forall i | 0 <= i < |s| && 0 <= s[i] < 256 :: CharCode(s[i]) == s[i]
  { }

  /** Two bytes. */
  lemma TwoBytes(c0: int, c1: int)
    requires 0xC0 <= c0 < 0xE0 && Tail(c1)
    ensures var r := Join2(c0, c1);
            && (r <= 0x7F <==> c0 < 0xC2)
            && (r > 0x7F ==> r <= 0x7FF && [c0, c1] == [0xC0 + r / 64, 0x80 + r % 64])
  { }

  lemma ThreeBytes(c0: int, c1: int, c2: int)
    requires 0xE0 <= c0 < 0xF0 && Tail(c1) && Tail(c2)
    ensures var r := Join3(c0, c1, c2);
            && (r <= 0x7FF <==> c0 == 0xE0 && c1 < 0xA0)
            && (Surrogate(r) <==> c0 == 0xED && c1 >= 0xA0)
            && 0 <= r <= 0xFFFF && c0 == 0xE0 + r / 4096 && c1 == 0x80 + r / 64 % 64 && c2 == 0x80 + r % 64
  {
    var a, b, c := c0 % 16, c1 % 64, c2 % 64;
    var r := a * 4096 + b * 64 + c;
    assert r / 64 == a * 64 + b && r % 64 == c;
    assert r / 4096 == a && r / 64 % 64 == b;
  }

  lemma FourBytes(c0: int, c1: int, c2: int, c3: int)
    requires 0xF0 <= c0 < 0xF8 && Tail(c1) && Tail(c2) && Tail(c3)
    ensures var r := Join4(c0, c1, c2, c3);
            && (r <= 0xFFFF <==> c0 == 0xF0 && c1 < 0x90)
            && (r > 0x10FFFF <==> c0 > 0xF4 || (c0 == 0xF4 && c1 >= 0x90))
            && 0 <= r && c0 == 0xF0 + r / 0x4_0000 && c1 == 0x80 + r / 4096 % 64 && c2 == 0x80 + r / 64 % 64
            && c3 == 0x80 + r % 64
  {
    var a, b, c, d := c0 % 8, c1 % 64, c2 % 64, c3 % 64;
    var r := a * 0x4_0000 + b * 4096 + c * 64 + d;
    assert r / 64 == a * 4096 + b * 64 + c && r % 64 == d;
    assert r / 4096 == a * 64 + b && r / 64 % 64 == c;
    assert r / 0x4_0000 == a && r / 4096 % 64 == b;
  }

  /** The bytes of a sequence of length w. */
  function FirstBytes(c0: int, c1: int, c2: int, c3: int, w: nat): seq<int> {
    if w <= 1 then [c0] else if w == 2 then [c0, c1] else if w == 3 then [c0, c1, c2] else [c0, c1, c2, c3]
  }

  /** The two agree on the bytes at the start of a string: the same length, or one bad byte, and the
      bytes are those of the rune. */
  ghost predicate Agree(c0: int, c1: int, c2: int, c3: int) {
    var w := WidthOf(c0, c1, c2, c3);
    var d := Decoded(c0, c1, c2, c3);
    && d == (if w > 0 then (d.0, w) else (BAD, 1)) && Scalar(d.0)
    && (w > 0 ==> Encoded(d.0) == FirstBytes(c0, c1, c2, c3, w))
  }

  lemma AgreeOne(c0: int, c1: int, c2: int, c3: int)
    requires 0 <= c0 < 0xC0 || (0xC0 <= c0 < 256 && !Tail(c1))
    ensures Agree(c0, c1, c2, c3)
  { }

  lemma AgreeTwo(c0: int, c1: int, c2: int, c3: int)
    requires 0xC0 <= c0 < 0xE0 && Tail(c1)
    ensures Agree(c0, c1, c2, c3)
  {
    hide Join2;
    TwoBytes(c0, c1);
  }

  lemma AgreeThree(c0: int, c1: int, c2: int, c3: int)
    requires 0xE0 <= c0 < 0xF0 && Tail(c1)
    ensures Agree(c0, c1, c2, c3)
  {
    hide Join3;
    if Tail(c2) { ThreeBytes(c0, c1, c2); }
  }

  lemma AgreeFour(c0: int, c1: int, c2: int, c3: int)
    requires 0xF0 <= c0 < 256 && Tail(c1)
    ensures Agree(c0, c1, c2, c3)
  {
    hide Join4;
    if c0 < 0xF8 && Tail(c2) && Tail(c3) { FourBytes(c0, c1, c2, c3); }
  }

  lemma DecodedIsGrammar(c0: int, c1: int, c2: int, c3: int)
    requires 0 <= c0 < 256
    ensures Agree(c0, c1, c2, c3)
  {
    hide Agree;
    if c0 < 0xC0 || !Tail(c1) {
      AgreeOne(c0, c1, c2, c3);
    } else if c0 < 0xE0 {
      AgreeTwo(c0, c1, c2, c3);
    } else if c0 < 0xF0 {
      AgreeThree(c0, c1, c2, c3);
    } else {
      AgreeFour(c0, c1, c2, c3);
    }
  }

  /** $decodeRune takes exactly the sequences of the grammar; anything else is one bad byte. */
  lemma DecodeWidth(s: seq<Byte>)
    requires s != []
    ensures DecodeRune(s).1 == (if Width(s) > 0 then Width(s) else 1)
    ensures Width(s) == 0 ==> DecodeRune(s).0 == BAD
    ensures Scalar(DecodeRune(s).0)
    ensures Width(s) > 0 ==> EncodeRune(DecodeRune(s).0) == s[..Width(s)]
  {
    var c0, c1, c2, c3 := s[0], CharCodeAt(s, 1), CharCodeAt(s, 2), CharCodeAt(s, 3);
    DecodeIs(s);
    EncodeIs(DecodeRune(s).0);
    DecodedIsGrammar(c0, c1, c2, c3);
    hide DecodeRune, EncodeRune, Decoded, Encoded, Surrogate;
    if Width(s) > 0 { WidthBytes(s); }
  }

  lemma WidthBytes(s: seq<Byte>)
    requires s != [] && Width(s) > 0
    ensures s[..Width(s)] == FirstBytes(s[0], CharCodeAt(s, 1), CharCodeAt(s, 2), CharCodeAt(s, 3), Width(s))
  { }

  /** An encoded rune followed by anything is decoded to itself, or to U+FFFD if it is none. */
  lemma DecodeEncoded(r: Rune, rest: seq<Byte>)
    ensures EncodeRune(r) + rest != [] && DecodeRune(EncodeRune(r) + rest) == (Fix(r), |EncodeRune(r)|)
    ensures Width(EncodeRune(r) + rest) == |EncodeRune(r)|
  {
    var t := EncodeRune(r) + rest;
    EncodeIs(r);
    hide EncodeRune;
    var e := Encoded(Fix(r));
    assert forall i | 0 <= i < |e| :: t[i] == e[i];
    DecodeIs(t);
    DecodedIsGrammar(t[0], CharCodeAt(t, 1), CharCodeAt(t, 2), CharCodeAt(t, 3));
    hide DecodeRune;
    EncodedRoundTrip(Fix(r), CharCodeAt(t, 1), CharCodeAt(t, 2), CharCodeAt(t, 3));
  }

  lemma EncodedRoundTrip(r: Rune, c1: int, c2: int, c3: int)
    requires Scalar(r)
    requires var e := Encoded(r);
             (|e| > 1 ==> c1 == e[1]) && (|e| > 2 ==> c2 == e[2]) && (|e| > 3 ==> c3 == e[3])
    ensures Decoded(Encoded(r)[0], c1, c2, c3) == (r, |Encoded(r)|)
            && WidthOf(Encoded(r)[0], c1, c2, c3) == |Encoded(r)|
  {
    hide Decoded, WidthOf;
    DecodedIsGrammar(Encoded(r)[0], c1, c2, c3);
    if r <= 0x7F {
      assert Decoded(r, c1, c2, c3) == (r, 1) && WidthOf(r, c1, c2, c3) == 1 by { OneByte(r, c1, c2, c3); }
    } else if r <= 0x7FF {
      TwoBack(r, c2, c3);
    } else if r <= 0xFFFF {
      ThreeBack(r, c3);
    } else {
      FourBack(r);
    }
  }

  lemma OneByte(r: Rune, c1: int, c2: int, c3: int)
    requires 0 <= r <= 0x7F
    ensures Decoded(r, c1, c2, c3) == (r, 1) && WidthOf(r, c1, c2, c3) == 1
  { }

  lemma TwoBack(r: Rune, c2: int, c3: int)
    requires 0x80 <= r <= 0x7FF
    ensures Decoded(0xC0 + r / 64, 0x80 + r % 64, c2, c3) == (r, 2)
            && WidthOf(0xC0 + r / 64, 0x80 + r % 64, c2, c3) == 2
  {
    var c0, c1 := 0xC0 + r / 64, 0x80 + r % 64;
    assert 0xC2 <= c0 <= 0xDF && Tail(c1);
    assert c0 % 32 == r / 64 && c1 % 64 == r % 64;
  }

  lemma ThreeBack(r: Rune, c3: int)
    requires 0x800 <= r <= 0xFFFF && !Surrogate(r)
    ensures var c0, c1, c2 := 0xE0 + r / 4096, 0x80 + r / 64 % 64, 0x80 + r % 64;
            Decoded(c0, c1, c2, c3) == (r, 3) && WidthOf(c0, c1, c2, c3) == 3
  {
    var c0, c1, c2 := 0xE0 + r / 4096, 0x80 + r / 64 % 64, 0x80 + r % 64;
    var a, b, c := r / 4096, r / 64 % 64, r % 64;
    Base64(r);
    assert c0 % 16 == a && c1 % 64 == b && c2 % 64 == c;
    assert c0 % 16 * 4096 + c1 % 64 * 64 + c2 % 64 == r;
    DecodedIsGrammar(c0, c1, c2, c3);
    hide WidthOf;
  }

  /** The digits of a rune in base 64. */
  lemma Base64(r: int)
    requires 0 <= r <= 0x10FFFF
    ensures r == r / 0x4_0000 * 0x4_0000 + r / 4096 % 64 * 4096 + r / 64 % 64 * 64 + r % 64
    ensures r <= 0xFFFF ==> r == r / 4096 * 4096 + r / 64 % 64 * 64 + r % 64 && r / 4096 < 16
    ensures r / 0x4_0000 < 8
  { }

  lemma FourBack(r: Rune)
    requires 0x1_0000 <= r <= 0x10FFFF
    ensures var c0, c1, c2, c3 := 0xF0 + r / 0x4_0000, 0x80 + r / 4096 % 64, 0x80 + r / 64 % 64, 0x80 + r % 64;
            Decoded(c0, c1, c2, c3) == (r, 4) && WidthOf(c0, c1, c2, c3) == 4
  {
    var c0, c1, c2, c3 := 0xF0 + r / 0x4_0000, 0x80 + r / 4096 % 64, 0x80 + r / 64 % 64, 0x80 + r % 64;
    var a, b, c, d := r / 0x4_0000, r / 4096 % 64, r / 64 % 64, r % 64;
    Base64(r);
    FourDigits(c0, c1, c2, c3, a, b, c, d);
    DecodedIsGrammar(c0, c1, c2, c3);
    hide WidthOf;
  }

  lemma FourDigits(c0: int, c1: int, c2: int, c3: int, a: int, b: int, c: int, d: int)
    requires 0 <= a < 8 && 0 <= b < 64 && 0 <= c < 64 && 0 <= d < 64
    requires c0 == 0xF0 + a && c1 == 0x80 + b && c2 == 0x80 + c && c3 == 0x80 + d
    ensures c0 % 8 * 0x4_0000 + c1 % 64 * 4096 + c2 % 64 * 64 + c3 % 64 == a * 0x4_0000 + b * 4096 + c * 64 + d
    ensures Tail(c1) && Tail(c2) && Tail(c3) && 0xF0 <= c0 < 0xF8
  { }

  lemma EncodedValue(r: Rune)
    requires Scalar(r)
    ensures var e := Encoded(r);
            && 1 <= |e| <= 4 && (|e| == 1 ==> r == e[0])
            && (|e| == 2 ==> r == (e[0] - 0xC0) * 0x40 + (e[1] - 0x80))
            && (|e| == 3 ==> r == (e[0] - 0xE0) * 0x1000 + (e[1] - 0x80) * 0x40 + (e[2] - 0x80))
            && (|e| == 4 ==> r == (e[0] - 0xF0) * 0x4_0000 + (e[1] - 0x80) * 0x1000 + (e[2] - 0x80) * 0x40
                                  + (e[3] - 0x80))
  {
    Base64(r);
  }

  /** What a sequence of the grammar stands for, as section 3 of RFC 3629 lays out its bits. */
  lemma DecodeValue(s: seq<Byte>)
    requires s != []
    ensures var r, w := DecodeRune(s).0, Width(s);
            && w <= 4 && (w == 0 ==> r == 0xFFFD) && (w == 1 ==> r == s[0])
            && (w == 2 ==> r == (s[0] as int - 0xC0) * 0x40 + (s[1] as int - 0x80))
            && (w == 3 ==> r == (s[0] as int - 0xE0) * 0x1000 + (s[1] as int - 0x80) * 0x40 + (s[2] as int - 0x80))
            && (w == 4 ==> r == (s[0] as int - 0xF0) * 0x4_0000 + (s[1] as int - 0x80) * 0x1000
                                + (s[2] as int - 0x80) * 0x40 + (s[3] as int - 0x80))
  {
    hide DecodeRune, EncodeRune, Encoded, Width;
    var r := DecodeRune(s).0;
    DecodeWidth(s);
    EncodeIs(r);
    FixIs(r);
    if Width(s) > 0 { EncodedValue(r); }
  }

  // ----- strings and runes -----

  function Runes(s: seq<Byte>): seq<Rune> {
    if s == [] then [] else [DecodeRune(s).0] + Runes(s[DecodeRune(s).1..])
  }

  function Encode(rs: seq<Rune>): seq<Byte> {
    if rs == [] then [] else EncodeRune(rs[0]) + Encode(rs[1..])
  }

  function Replaced(rs: seq<Rune>): (t: seq<Rune>)
    ensures |t| == |rs| && forall i | 0 <= i < |rs| :: t[i] == Fix(rs[i])
  {
    if rs == [] then [] else [Fix(rs[0])] + Replaced(rs[1..])
  }

  lemma {:induction false} RunesReplaced(rs: seq<Rune>)
    ensures Runes(Encode(rs)) == Replaced(rs)
  {
    hide EncodeRune, Runes, Fix;
    if rs == [] {
      NoRunes();
    } else {
      RunesReplaced(rs[1..]);
      RunesCons(rs[0], Encode(rs[1..]));
    }
  }

  /** $stringToRunes after $runesToString puts U+FFFD for each number that is no code point or is a surrogate, and
      keeps the others. */
  lemma RunesOfEncode(rs: seq<Rune>)
    ensures |Runes(Encode(rs))| == |rs|
    ensures forall i | 0 <= i < |rs| ::
              Runes(Encode(rs))[i] == if 0 <= rs[i] <= 0xD7FF || 0xE000 <= rs[i] <= 0x10FFFF then rs[i] else 0xFFFD
  {
    hide Fix, Runes, Encode, Replaced;
    RunesReplaced(rs);
    forall i | 0 <= i < |rs|
      ensures Fix(rs[i]) == if 0 <= rs[i] <= 0xD7FF || 0xE000 <= rs[i] <= 0x10FFFF then rs[i] else 0xFFFD
    {
      FixIs(rs[i]);
    }
  }

  lemma RunesCons(r: Rune, rest: seq<Byte>)
    ensures Runes(EncodeRune(r) + rest) == [Fix(r)] + Runes(rest)
  {
    hide DecodeRune, EncodeRune, Fix, Width;
    DecodeEncoded(r, rest);
    assert (EncodeRune(r) + rest)[|EncodeRune(r)|..] == rest;
  }

  /** Decoding and encoding is the identity exactly on valid UTF-8. */
  lemma {:induction false} EncodeOfRunes(s: seq<Byte>)
    ensures Encode(Runes(s)) == s <==> ValidUtf8(s)
    ensures |Encode(Runes(s))| >= |s| && (|Encode(Runes(s))| == |s| ==> ValidUtf8(s))
    decreases |s|
  {
    if s != [] {
      var (r, w) := DecodeRune(s);
      EncodeOfRunes(s[w..]);
      var t := Encode(Runes(s[w..]));
      assert Encode(Runes(s)) == EncodeRune(r) + t by { assert Runes(s)[1..] == Runes(s[w..]); }
      DecodeWidth(s);
      BadIsThree();
      hide DecodeRune, EncodeRune, Width, Runes, Encode, Scalar;
      if Width(s) > 0 { SameTail(s, w, t); }
    }
  }

  lemma BadIsThree()
    ensures |EncodeRune(BAD)| == 3
  {
    EncodeIs(BAD);
  }

  lemma SameTail(s: seq<Byte>, w: nat, t: seq<Byte>)
    requires w <= |s|
    ensures s[..w] + t == s <==> t == s[w..]
  {
    assert (s[..w] + t)[w..] == t && s == s[..w] + s[w..];
  }

  lemma RunesStep(s: seq<Byte>, i: nat)
    requires i < |s|
    ensures Runes(s[i..]) == [DecodeRune(s[i..]).0] + Runes(s[i + DecodeRune(s[i..]).1..])
  {
    hide DecodeRune;
    assert s[i..][DecodeRune(s[i..]).1..] == s[i + DecodeRune(s[i..]).1..];
  }

  lemma NoRunes()
    ensures Runes([]) == [] && Utf16([]) == [] && Internal([]) == []
  { }

  method StringToRunes(str: seq<Byte>) returns (runes: seq<Rune>)
    ensures runes == Runes(str)
  {
    hide DecodeRune, Runes;
    var a := new Rune[|str|];
    var j, i := 0, 0;
    assert str[0..] == str && a[..0] == [];
    while i < |str|
      invariant 0 <= j <= i <= |str| == a.Length
      invariant a[..j] + Runes(str[i..]) == Runes(str)
    {
      RunesStep(str, i);
      var rune := DecodeRune(str[i..]);
      ghost var done := a[..j];
      Assoc(done, [rune.0], Runes(str[i + rune.1..]));
      a[j] := rune.0;
      assert a[..j + 1] == done + [rune.0];
      i, j := i + rune.1, j + 1;
    }
    NoRunes();
    assert str[i..] == [];
    return a[..j];
  }

  method RunesToString(slice: seq<Rune>) returns (str: seq<Byte>)
    ensures str == Encode(slice)
  {
    str := [];
    if |slice| == 0 { return; }
    for i := 0 to |slice|
      invariant str + Encode(slice[i..]) == Encode(slice)
    {
      hide EncodeRune;
      assert slice[i..][1..] == slice[i + 1..];
      str := str + EncodeRune(slice[i]);
    }
    assert slice[|slice|..] == [];
  }

  // ----- UTF-16 -----

  predicate IsAsciiSeq(s: seq<int>) {
    forall i | 0 <= i < |s| :: s[i] < 128
  }

  method IsASCII(s: seq<int>) returns (b: bool)
    ensures b <==> IsAsciiSeq(s)
  {
    for i := 0 to |s|
      invariant forall j | 0 <= j < i :: s[j] < 128
    {
      if s[i] >= 128 { return false; }
    }
    return true;
  }

  /** The units of a rune: two, a surrogate pair, above U+FFFF. */
  function UnitsOf(c: Rune): (u: seq<Unit>)
    ensures |u| > 0
  {
    if c > 0xFFFF then [CharCode((c - 0x1_0000) / 0x400 + 0xD800), CharCode((c - 0x1_0000) % 0x400 + 0xDC00)]
        else [CharCode(c)]
  }

  function Utf16(rs: seq<Rune>): seq<Unit> {
    if rs == [] then [] else UnitsOf(rs[0]) + Utf16(rs[1..])
  }

  /** u is well-formed UTF-16 and, read as section 2.2 of RFC 2781 says, stands for the code points rs. */
  predicate Utf16Of(u: seq<Unit>, rs: seq<Rune>) {
    if u == [] || rs == [] then u == [] && rs == []
    else if 0xD800 <= u[0] <= 0xDBFF then
      && |u| >= 2 && 0xDC00 <= u[1] <= 0xDFFF
      && rs[0] == 0x1_0000 + (u[0] as int - 0xD800) * 0x400 + (u[1] as int - 0xDC00) && Utf16Of(u[2..], rs[1..])
    else !(0xDC00 <= u[0] <= 0xDFFF) && rs[0] == u[0] && Utf16Of(u[1..], rs[1..])
  }

  /** The units of a scalar value: a surrogate pair above U+FFFF, otherwise one unit that is no surrogate. */
  lemma UnitsForm(c: Rune)
    requires Scalar(c)
    ensures var u := UnitsOf(c);
            if c > 0xFFFF then
              && |u| == 2 && 0xD800 <= u[0] <= 0xDBFF && 0xDC00 <= u[1] <= 0xDFFF
              && c == 0x1_0000 + (u[0] as int - 0xD800) * 0x400 + (u[1] as int - 0xDC00)
            else
              u == [c] && !(0xD800 <= u[0] <= 0xDFFF)
  { }

  lemma {:induction false} Utf16Form(rs: seq<Rune>)
    requires forall i | 0 <= i < |rs| :: Scalar(rs[i])
    ensures Utf16Of(Utf16(rs), rs)
  {
    if rs != [] {
      Utf16Form(rs[1..]);
      UnitsForm(rs[0]);
      hide UnitsOf;
      var u, k := Utf16(rs), |UnitsOf(rs[0])|;
      assert u[k..] == Utf16(rs[1..]);
      assert u[0] == UnitsOf(rs[0])[0];
      if k == 2 { assert u[1] == UnitsOf(rs[0])[1]; }
    }
  }

  lemma {:induction false} RunesScalar(s: seq<Byte>)
    ensures forall i | 0 <= i < |Runes(s)| :: Scalar(Runes(s)[i])
    decreases |s|
  {
    if s != [] {
      DecodeWidth(s);
      hide DecodeRune;
      RunesScalar(s[DecodeRune(s).1..]);
    }
  }

  lemma {:induction false} AsciiRunes(s: seq<Byte>)
    requires IsAsciiSeq(s)
    ensures Runes(s) == s && Utf16(s) == s
    decreases |s|
  {
    hide DecodeRune, UnitsOf;
    if s != [] {
      AsciiUnit(s);
      AsciiRunes(s[1..]);
      assert s == [s[0]] + s[1..];
      assert Runes(s)[1..] == Runes(s[1..]);
    }
  }

  lemma AsciiUnit(s: seq<Byte>)
    requires s != [] && s[0] < 128
    ensures DecodeRune(s) == (s[0], 1) && UnitsOf(s[0]) == [s[0]]
  { }

  lemma ExternalStep(v: seq<Byte>)
    requires v != []
    ensures Utf16(Runes(v)) == UnitsOf(DecodeRune(v).0) + Utf16(Runes(v[DecodeRune(v).1..]))
  {
    hide DecodeRune, UnitsOf;
    assert Runes(v)[1..] == Runes(v[DecodeRune(v).1..]);
  }

  /** $externalize of a string: well-formed UTF-16 of its runes. */
  method Externalize(v: seq<Byte>) returns (s: seq<Unit>)
    ensures s == Utf16(Runes(v)) && Utf16Of(s, Runes(v))
  {
    RunesScalar(v);
    Utf16Form(Runes(v));
    var ascii := IsASCII(v);
    if ascii {
      AsciiRunes(v);
      return v;
    }
    hide DecodeRune, UnitsOf, Runes, Utf16;
    s := [];
    var i := 0;
    assert v[0..] == v;
    while i < |v|
      invariant 0 <= i <= |v| && s + Utf16(Runes(v[i..])) == Utf16(Runes(v))
    {
      ExternalStep(v[i..]);
      var r := DecodeRune(v[i..]);
      assert v[i..][r.1..] == v[i + r.1..];
      var u := Units(r.0);
      Assoc(s, u, Utf16(Runes(v[i + r.1..])));
      s := s + u;
      i := i + r.1;
    }
    NoRunes();
    assert v[i..] == [];
  }

  /** What the loop of $externalize appends for one rune. */
  method Units(c: Rune) returns (u: seq<Unit>)
    ensures u == UnitsOf(c)
  {
    if c > 0xFFFF {
      var h := (c - 0x1_0000) / 0x400 + 0xD800;
      var l := (c - 0x1_0000) % 0x400 + 0xDC00;
      return [CharCode(h), CharCode(l)];
    }
    return [CharCode(c)];
  }

  lemma Assoc(a: seq<int>, b: seq<int>, c: seq<int>)
    ensures (a + b) + c == a + (b + c)
  { }

  /** $encodeRune of NaN, which all its tests let through and whose bits are all zero. */
  function EncodeNaN(): seq<Byte> {
    [0xF0, 0x80, 0x80, 0x80]
  }

  /** What $internalize takes a surrogate pair for, whatever its second half is. */
  function Paired(h: int, l: int): int {
    (h - 0xD800) * 0x400 + l - 0xDC00 + 0x1_0000
  }

  /** What the loop of $internalize makes of the units. */
  function Internal(u: seq<Unit>): seq<Byte> {
    if u == [] then []
    else if 0xD800 <= u[0] <= 0xDBFF then
      if |u| == 1 then EncodeNaN()
      else EncodeRune(Paired(u[0], u[1])) + Internal(u[2..])
    else EncodeRune(u[0]) + Internal(u[1..])
  }

  lemma {:induction false} InternalAscii(u: seq<Unit>)
    requires IsAsciiSeq(u)
    ensures (forall i | 0 <= i < |u| :: 0 <= u[i] < 256) && Internal(u) == u
  {
    if u != [] {
      InternalAscii(u[1..]);
      EncodeIs(u[0]);
      hide EncodeRune;
      assert u == [u[0]] + u[1..];
    }
  }

  /** $internalize of a string. */
  method Internalize(v: seq<Unit>) returns (s: seq<Byte>)
    ensures s == Internal(v)
  {
    var ascii := IsASCII(v);
    if ascii {
      InternalAscii(v);
      return v;
    }
    hide EncodeRune, Internal, Paired;
    s := [];
    var i := 0;
    assert v[0..] == v;
    while i < |v|
      invariant 0 <= i <= |v| && s + Internal(v[i..]) == Internal(v)
    {
      InternalStep(v, i);
      var h := v[i];
      if 0xD800 <= h <= 0xDBFF {
        if i + 1 < |v| {
          var l := v[i + 1];
          var c := Paired(h, l);
          Assoc(s, EncodeRune(c), Internal(v[i + 2..]));
          s := s + EncodeRune(c);
          i := i + 2;
          continue;
        }
        s := s + EncodeNaN();
        return;
      }
      Assoc(s, EncodeRune(h), Internal(v[i + 1..]));
      s := s + EncodeRune(h);
      i := i + 1;
    }
    NoRunes();
    assert v[i..] == [];
  }

  lemma InternalStep(v: seq<Unit>, i: nat)
    requires i < |v|
    ensures Internal(v[i..]) ==
              if 0xD800 <= v[i] <= 0xDBFF then
                if i + 1 < |v| then EncodeRune(Paired(v[i], v[i + 1])) + Internal(v[i + 2..]) else EncodeNaN()
              else EncodeRune(v[i]) + Internal(v[i + 1..])
  {
    var u := v[i..];
    assert u[1..] == v[i + 1..];
    if |u| > 1 { assert u[2..] == v[i + 2..]; }
  }

  /** From well-formed UTF-16 $internalize makes the UTF-8 of its code points. */
  lemma {:induction false} InternalOfUtf16(u: seq<Unit>, rs: seq<Rune>)
    requires Utf16Of(u, rs)
    ensures Internal(u) == Encode(rs)
    decreases |rs|
  {
    hide EncodeRune;
    if u != [] { InternalOfUtf16(if 0xD800 <= u[0] <= 0xDBFF then u[2..] else u[1..], rs[1..]); }
  }

  /** A string that goes to JavaScript and back is its runes encoded again; it is unchanged exactly
      when it was valid UTF-8. */
  lemma ThereAndBack(s: seq<Byte>)
    ensures Internal(Utf16(Runes(s))) == Encode(Runes(s))
    ensures Internal(Utf16(Runes(s))) == s <==> ValidUtf8(s)
  {
    RunesScalar(s);
    Utf16Form(Runes(s));
    InternalOfUtf16(Utf16(Runes(s)), Runes(s));
    EncodeOfRunes(s);
  }

  /** Read in pairs from the front, the string ends in the first half of a surrogate pair. */
  predicate EndsInHalf(u: seq<Unit>) {
    u != [] && if 0xD800 <= u[0] <= 0xDBFF then |u| == 1 || EndsInHalf(u[2..]) else EndsInHalf(u[1..])
  }

  /** What $internalize makes of a JavaScript string is valid UTF-8 exactly when the string does not end
      in half a pair. */
  lemma {:induction false} InternalValid(u: seq<Unit>)
    ensures ValidUtf8(Internal(u)) <==> !EndsInHalf(u)
    decreases |u|
  {
    if u != [] {
      if 0xD800 <= u[0] <= 0xDBFF {
        if |u| > 1 {
          InternalValid(u[2..]);
          ValidAfterRune(Paired(u[0], u[1]), Internal(u[2..]));
          hide EncodeRune, ValidUtf8;
        }
      } else {
        InternalValid(u[1..]);
        ValidAfterRune(u[0], Internal(u[1..]));
        hide EncodeRune, ValidUtf8;
      }
    }
  }

  /** Half a pair at the end becomes bytes that are not UTF-8. */
  lemma InternalOfHalf(h: Unit)
    requires 0xD800 <= h <= 0xDBFF
    ensures Internal([h]) == [0xF0, 0x80, 0x80, 0x80] && !ValidUtf8(Internal([h]))
  {
    hide ValidUtf8, EncodeRune;
    InternalValid([h]);
  }

  /** What $internalize makes of units that are not well-formed: the first half of a pair takes the next unit for the
      second half, whatever it is, and a second half alone becomes U+FFFD. */
  lemma InternalIllFormed(u: seq<Unit>)
    requires u != [] && (0xD800 <= u[0] <= 0xDBFF ==> |u| >= 2)
    ensures var rest := if 0xD800 <= u[0] <= 0xDBFF then u[2..] else u[1..];
            Internal(u) ==
              (if 0xD800 <= u[0] <= 0xDBFF then
                 Encode([0x1_0000 + (u[0] as int - 0xD800) * 0x400 + (u[1] as int - 0xDC00)])
               else if 0xDC00 <= u[0] <= 0xDFFF then [0xEF, 0xBF, 0xBD]
               else Encode([u[0]])) + Internal(rest)
  {
    hide EncodeRune, ValidUtf8, Utf16Of;
    EncodeSingle(u[0]);
    if |u| >= 2 { EncodeSingle(Paired(u[0], u[1])); }
    SurrogateBytes(u[0]);
  }

  lemma SurrogateBytes(r: Rune)
    ensures Surrogate(r) ==> EncodeRune(r) == [0xEF, 0xBF, 0xBD]
  {
    EncodeIs(r);
    hide EncodeRune;
  }

  lemma EncodeSingle(r: Rune)
    ensures Encode([r]) == EncodeRune(r)
  {
    assert [r][1..] == [];
  }

  lemma ValidAfterRune(r: Rune, rest: seq<Byte>)
    ensures ValidUtf8(EncodeRune(r) + rest) <==> ValidUtf8(rest)
  {
    DecodeEncoded(r, rest);
    hide EncodeRune, DecodeRune, Width;
    assert (EncodeRune(r) + rest)[|EncodeRune(r)|..] == rest;
  }
}
