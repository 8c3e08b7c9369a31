/** 64-bit integers as two words: the constructors of compiler/prelude/types.js, the operators that
    compiler/expressions.go emits and the shifts of compiler/prelude/numeric.js. */
module Int64 {
  import opened JsNumber
  import opened BinaryDigits

  /** An Int64 or, when not signed, a Uint64. */
  datatype Long = Long(signed: bool, high: int, low: int)

  predicate IsLong(x: Long) {
    && 0 <= x.low < TWO32
    && (if x.signed then -0x8000_0000 <= x.high < 0x8000_0000 else 0 <= x.high < TWO32)
  }

  function Value(x: Long): int {
    x.high * TWO32 + x.low
  }

  /** The value a 64-bit integer takes for a mathematical integer. */
  function Wrap(signed: bool, v: int): int {
    if signed && v % TWO64 >= TWO64 / 2 then v % TWO64 - TWO64 else v % TWO64
  }

  /** The constructors. */
  function New(signed: bool, high: Exact, low: Exact): Long {
    var h := high + low / TWO32;
    Long(signed, if signed then ToInt32(h) else ToUint32(h), ToUint32(low))
  }

  // ----- what the constructors do -----

  lemma SameMod(v: int, w: int, k: int)
    requires v == w + TWO64 * k
    ensures v % TWO64 == w % TWO64
  {
    SameRemainder(v, w, TWO64, k);
  }

  lemma WrapIs(signed: bool, v: int, w: int, k: int)
    requires v == w + TWO64 * k
    requires if signed then -TWO64 / 2 <= v < TWO64 / 2 else 0 <= v < TWO64
    ensures Wrap(signed, w) == v
  {
    SameMod(v, w, k);
  }

  lemma NewValue(signed: bool, high: Exact, low: Exact)
    ensures IsLong(New(signed, high, low)) && New(signed, high, low).signed == signed
    ensures Value(New(signed, high, low)) == Wrap(signed, high * TWO32 + low)
  {
    var x := New(signed, high, low);
    var h := high + low / TWO32;
    DivMod(low, TWO32);
    DivMod(h, TWO32);
    var k := (h - x.high) / TWO32;
    assert h - x.high == TWO32 * k;
    WrapIs(signed, Value(x), high * TWO32 + low, -k);
  }

  lemma ValueRange(x: Long)
    requires IsLong(x)
    ensures if x.signed then -TWO64 / 2 <= Value(x) < TWO64 / 2 else 0 <= Value(x) < TWO64
    ensures Wrap(x.signed, Value(x)) == Value(x)
  {
    WrapIs(x.signed, Value(x), Value(x), 0);
  }

  // ----- the emitted operators -----

  function Add(x: Long, y: Long): Long
    requires IsLong(x) && IsLong(y)
  {
    New(x.signed, x.high + y.high, x.low + y.low)
  }

  function Sub(x: Long, y: Long): Long
    requires IsLong(x) && IsLong(y)
  {
    New(x.signed, x.high - y.high, x.low - y.low)
  }

  function Neg(x: Long): Long
    requires IsLong(x)
  {
    New(x.signed, -x.high, -x.low)
  }

  function Complement(x: Long): Long
    requires IsLong(x)
  {
    New(x.signed, Not(x.high), ToUint32(Not(x.low)))
  }

  /** The operators `&`, `|`, `^` and `&^` on the two words. */
  function Bitwise(op: BitOp, x: Long, y: Long): Long {
    New(x.signed, Apply(op, x.high, y.high), Ushr(Apply(op, x.low, y.low), 0))
  }

  predicate Less(x: Long, y: Long) {
    x.high < y.high || (x.high == y.high && x.low < y.low)
  }

  predicate LessEq(x: Long, y: Long) {
    x.high < y.high || (x.high == y.high && x.low <= y.low)
  }

  predicate Equal(x: Long, y: Long) {
    x.high == y.high && x.low == y.low
  }

  lemma AddCorrect(x: Long, y: Long)
    requires IsLong(x) && IsLong(y) && x.signed == y.signed
    ensures IsLong(Add(x, y)) && Value(Add(x, y)) == Wrap(x.signed, Value(x) + Value(y))
  {
    NewValue(x.signed, x.high + y.high, x.low + y.low);
  }

  lemma SubCorrect(x: Long, y: Long)
    requires IsLong(x) && IsLong(y) && x.signed == y.signed
    ensures IsLong(Sub(x, y)) && Value(Sub(x, y)) == Wrap(x.signed, Value(x) - Value(y))
  {
    NewValue(x.signed, x.high - y.high, x.low - y.low);
  }

  lemma NegCorrect(x: Long)
    requires IsLong(x)
    ensures IsLong(Neg(x)) && Value(Neg(x)) == Wrap(x.signed, -Value(x))
  {
    NewValue(x.signed, -x.high, -x.low);
  }

  lemma ValueBits(x: Long, k: nat)
    requires IsLong(x)
    ensures Bit(Value(x), k) == if k < 32 then Bit(x.low, k) else Bit(x.high, k - 32)
  {
    hide Bit, Pow2;
    Pow32();
    SumBits(x.high, x.low, 32, k);
  }

  /** Every digit of the result is that of Go's operator. */
  lemma BitwiseCorrect(op: BitOp, x: Long, y: Long)
    requires IsLong(x) && IsLong(y) && x.signed == y.signed
    ensures IsLong(Bitwise(op, x, y))
    ensures forall k | 0 <= k < 64 ::
              Bit(Value(Bitwise(op, x, y)), k) == Combine(op, Bit(Value(x), k), Bit(Value(y), k))
  {
    hide Bit, Pow2, Apply, Value, Wrap;
    var r := Bitwise(op, x, y);
    forall k | 0 <= k < 64 ensures Bit(Value(r), k) == Combine(op, Bit(Value(x), k), Bit(Value(y), k)) {
      ValueBits(x, k);
      ValueBits(y, k);
      ValueBits(r, k);
      BitwiseWords(op, x, y, k % 32);
    }
  }

  lemma BitwiseWords(op: BitOp, x: Long, y: Long, k: nat)
    requires IsLong(x) && IsLong(y) && x.signed == y.signed && k < 32
    ensures Bit(Bitwise(op, x, y).low, k) == Combine(op, Bit(x.low, k), Bit(y.low, k))
    ensures Bit(Bitwise(op, x, y).high, k) == Combine(op, Bit(x.high, k), Bit(y.high, k))
  {
    hide Bit, Pow2, Apply;
    var h, l := Apply(op, x.high, y.high), Apply(op, x.low, y.low);
    ApplyBits(op, x.high, y.high, k);
    ApplyBits(op, x.low, y.low, k);
    WordBits(h, k);
    WordBits(l, k);
    assert Ushr(l, 0) == ToUint32(l) by { PowZero(); }
    assert ToUint32(l) / TWO32 == 0 && ToUint32(ToUint32(l)) == ToUint32(l);
  }

  lemma ComplementCorrect(x: Long)
    requires IsLong(x)
    ensures IsLong(Complement(x)) && Value(Complement(x)) == Wrap(x.signed, -1 - Value(x))
  {
    var h, l := Not(x.high), ToUint32(Not(x.low));
    NewValue(x.signed, h, l);
    assert l == TWO32 - 1 - x.low;
    if x.high < 0x8000_0000 {
      assert h == -1 - x.high;
    } else {
      assert h == -1 - x.high + TWO32;
      SameMod(h * TWO32 + l, -1 - Value(x), 1);
    }
  }

  lemma ComparisonsCorrect(x: Long, y: Long)
    requires IsLong(x) && IsLong(y) && x.signed == y.signed
    ensures Less(x, y) <==> Value(x) < Value(y)
    ensures LessEq(x, y) <==> Value(x) <= Value(y)
    ensures Equal(x, y) <==> Value(x) == Value(y)
  { }

  // ----- shifts -----

  function ShiftLeft64(x: Long, y: nat): Long
    requires IsLong(x)
  {
    if y == 0 then x
    else if y < 32 then New(x.signed, Or(Shl(x.high, y), Ushr(x.low, 32 - y)), ToUint32(Shl(x.low, y)))
    else if y < 64 then New(x.signed, Shl(x.low, y - 32), 0)
    else New(x.signed, 0, 0)
  }

  function ShiftRightInt64(x: Long, y: nat): Long
    requires IsLong(x)
  {
    if y == 0 then x
    else if y < 32 then New(x.signed, Sar(x.high, y), ToUint32(Or(Ushr(x.low, y), Shl(x.high, 32 - y))))
    else if y < 64 then New(x.signed, Sar(x.high, 31), ToUint32(Sar(x.high, y - 32)))
    else if x.high < 0 then New(x.signed, -1, 4294967295)
    else New(x.signed, 0, 0)
  }

  function ShiftRightUint64(x: Long, y: nat): Long
    requires IsLong(x)
  {
    if y == 0 then x
    else if y < 32 then New(x.signed, Ushr(x.high, y), ToUint32(Or(Ushr(x.low, y), Shl(x.high, 32 - y))))
    else if y < 64 then New(x.signed, 0, Ushr(x.high, y - 32))
    else New(x.signed, 0, 0)
  }

  /** A left shift by fewer than 32: the words, and what they are worth together. */
  lemma ShlWords(h: int, l: int, k: nat)
    requires 0 <= l < TWO32 && 0 < k < 32
    ensures exists c ::
              Or(Shl(h, k), Ushr(l, 32 - k)) * TWO32 + ToUint32(Shl(l, k)) == (h * TWO32 + l) * Pow2(k) + TWO64 * c
  {
    hide Pow2, Or, Shl, Ushr;
    var p, q, u := Pow2(k), Pow2(32 - k), ToUint32(h);
    Pow2Split(k);
    ShlSame(h, k);
    ShlOr(u, l, k);
    ShlValue(l, k);
    DivMod(u, q);
    DivMod(l, q);
    DivMod(h, TWO32);
    var o := Or(Shl(h, k), Ushr(l, 32 - k));
    DivMod(o, TWO32);
    ShlSum(h, l, p, q, o);
  }

  lemma ShlSame(h: int, k: nat)
    requires k < 32
    ensures Shl(h, k) == Shl(ToUint32(h), k)
  { }

  lemma ShlSum(h: int, l: int, p: int, q: int, o: int)
    requires p > 0 && q > 0 && p * q == TWO32 && 0 <= l
    requires o % TWO32 == (h % TWO32 % q) * p + l / q
    ensures exists c :: o * TWO32 + (l % q) * p == (h * TWO32 + l) * p + TWO64 * c
  {
    var u := h % TWO32;
    DivMod(h, TWO32);
    DivMod(u, q);
    DivMod(l, q);
    DivMod(o, TWO32);
    var a, b, c, d := u / q, u % q, l / q, l % q;
    assert u * p == TWO32 * a + b * p by { assert (q * a + b) * p == (p * q) * a + b * p; }
    assert l * p == TWO32 * c + d * p by { assert (q * c + d) * p == (p * q) * c + d * p; }
    assert h * p == TWO32 * (h / TWO32 * p) + u * p by {
      assert (TWO32 * (h / TWO32) + u) * p == TWO32 * (h / TWO32 * p) + u * p;
    }
    var e := o / TWO32 - a - h / TWO32 * p;
    assert o == h * p + c + TWO32 * e;
    assert (h * TWO32 + l) * p == TWO32 * (h * p) + l * p;
    assert o * TWO32 + d * p == (h * TWO32 + l) * p + TWO64 * e;
  }

  lemma {:induction false} Pow2Large(k: nat)
    requires k >= 64
    ensures Pow2(k) == TWO64 * Pow2(k - 64) && Pow2(k) >= TWO64
  {
    hide Pow2;
    Pow32();
    Pow2Add(32, 32);
    Pow2Add(64, k - 64);
    MulMono(TWO64, 1, Pow2(k - 64));
  }

  lemma Pow2Middle(k: nat)
    requires 32 <= k < 64
    ensures Pow2(k) == TWO32 * Pow2(k - 32)
  {
    hide Pow2;
    Pow32();
    Pow2Add(32, k - 32);
  }

  lemma ShlSmall(x: Long, k: nat)
    requires IsLong(x) && 0 < k < 32
    ensures IsLong(ShiftLeft64(x, k)) && Value(ShiftLeft64(x, k)) == Wrap(x.signed, Value(x) * Pow2(k))
  {
    hide Or, Shl, Ushr, New, Pow2;
    ShlWords(x.high, x.low, k);
    var h, l := Or(Shl(x.high, k), Ushr(x.low, 32 - k)), ToUint32(Shl(x.low, k));
    NewValue(x.signed, h, l);
    var c :| h * TWO32 + l == (x.high * TWO32 + x.low) * Pow2(k) + TWO64 * c;
    SameMod(h * TWO32 + l, Value(x) * Pow2(k), c);
  }

  lemma ShlMiddle(x: Long, k: nat)
    requires IsLong(x) && 32 <= k < 64
    ensures IsLong(ShiftLeft64(x, k)) && Value(ShiftLeft64(x, k)) == Wrap(x.signed, Value(x) * Pow2(k))
  {
    hide Or, Shl, Ushr, New, Pow2;
    Pow2Middle(k);
    NewValue(x.signed, Shl(x.low, k - 32), 0);
    var c := ShlMultiple(x.low, k - 32);
    ShiftMiddle(x.high, x.low, Pow2(k - 32), Shl(x.low, k - 32), c);
  }

  lemma ShlLarge(x: Long, k: nat)
    requires IsLong(x) && k >= 64
    ensures IsLong(ShiftLeft64(x, k)) && Value(ShiftLeft64(x, k)) == Wrap(x.signed, Value(x) * Pow2(k))
  {
    hide Or, Shl, Ushr, New, Pow2;
    Pow2Large(k);
    NewValue(x.signed, 0, 0);
    var p := Pow2(k - 64);
    assert Value(x) * Pow2(k) == TWO64 * (Value(x) * p);
    SameMod(Value(x) * Pow2(k), 0, Value(x) * p);
  }

  /** `x << y` for every count. */
  lemma ShiftLeftCorrect(x: Long, y: nat)
    requires IsLong(x)
    ensures IsLong(ShiftLeft64(x, y)) && Value(ShiftLeft64(x, y)) == Wrap(x.signed, Value(x) * Pow2(y))
  {
    if y == 0 {
      PowZero();
      hide Pow2, Wrap;
      ValueRange(x);
    } else if y < 32 {
      ShlSmall(x, y);
    } else if y < 64 {
      ShlMiddle(x, y);
    } else {
      ShlLarge(x, y);
    }
  }

  lemma ShlMultiple(x: int, k: nat) returns (c: int)
    requires 0 <= x < TWO32 && k < 32
    ensures Shl(x, k) == x * Pow2(k) + TWO32 * c
  {
    DivMod(x * Pow2(k), TWO32);
    c := (Shl(x, k) - x * Pow2(k)) / TWO32;
  }

  lemma ShiftMiddle(h: int, l: int, p: int, s: int, c: int)
    requires s == l * p + TWO32 * c
    ensures (s * TWO32) % TWO64 == ((h * TWO32 + l) * (TWO32 * p)) % TWO64
  {
    assert (h * TWO32 + l) * (TWO32 * p) == TWO64 * (h * p) + (l * p) * TWO32;
    SameMod(s * TWO32, (h * TWO32 + l) * (TWO32 * p), c - h * p);
  }

  /** A right shift of two words by fewer than 32, as a quotient. */
  lemma ShrSum(h: int, l: int, p: int, q: int)
    requires p > 0 && q > 0 && p * q == TWO32 && 0 <= l < TWO32
    ensures (h * TWO32 + l) / p == (h / p) * TWO32 + (h % p) * q + l / p
  {
    DivMod(h, p);
    DivMod(l, p);
    var a, b, c, d := h / p, h % p, l / p, l % p;
    assert h * TWO32 == p * (a * TWO32 + b * q) by {
      assert (p * a + b) * TWO32 == p * (a * TWO32) + b * (p * q);
      assert b * (p * q) == p * (b * q);
    }
    assert p * (a * TWO32 + b * q) + p * c == p * (a * TWO32 + b * q + c);
    DivUnique(h * TWO32 + l, p, a * TWO32 + b * q + c, d);
  }

  /** The remainder by a power of two of a word does not depend on how it is read. */
  lemma ModOfWord(h: int, p: int, q: int)
    requires p > 0 && q > 0 && p * q == TWO32
    ensures ToUint32(h) % p == h % p
  {
    DivMod(h, TWO32);
    DivMod(h % TWO32, p);
    assert h == p * (q * (h / TWO32) + h % TWO32 / p) + h % TWO32 % p by {
      assert TWO32 * (h / TWO32) == p * (q * (h / TWO32));
      assert p * (q * (h / TWO32)) + p * (h % TWO32 / p) == p * (q * (h / TWO32) + h % TWO32 / p);
    }
    DivUnique(h, p, q * (h / TWO32) + h % TWO32 / p, h % TWO32 % p);
  }

  /** The low word after a right shift by fewer than 32. */
  lemma ShrLow(h: int, l: int, k: nat)
    requires 0 <= l < TWO32 && 0 < k < 32
    ensures ToUint32(Or(Ushr(l, k), Shl(h, 32 - k))) == (h % Pow2(k)) * Pow2(32 - k) + l / Pow2(k)
  {
    hide Pow2, Or, Shl, Ushr;
    ShlSame(h, 32 - k);
    ShlOr(ToUint32(h), l, 32 - k);
    Pow2Split(k);
    ModOfWord(h, Pow2(k), Pow2(32 - k));
  }

  lemma QuotientRange(v: int, d: int, lo: int, hi: int)
    requires d > 0 && lo <= v < hi && lo <= 0 < hi
    ensures lo <= v / d < hi
  {
    DivMod(v, d);
    var q := v / d;
    AtLeast(d, q, hi);
    AtLeast(d, -q - 1, -lo);
    assert d * (-q - 1) == -(d * q) - d;
  }

  lemma WrapOfRange(signed: bool, v: int)
    requires if signed then -TWO64 / 2 <= v < TWO64 / 2 else 0 <= v < TWO64
    ensures Wrap(signed, v) == v
  {
    WrapIs(signed, v, v, 0);
  }

  /** A shift by 32 or more looks at the high word only. */
  lemma HighQuotient(h: int, l: int, d: int)
    requires 0 <= l < TWO32 && d > 0
    ensures (h * TWO32 + l) / (TWO32 * d) == h / d
  {
    DivMod(h, d);
    assert h * TWO32 + l == (TWO32 * d) * (h / d) + ((h % d) * TWO32 + l);
    MulMono(TWO32, h % d + 1, d);
    assert TWO32 * d > 0;
    DivUnique(h * TWO32 + l, TWO32 * d, h / d, (h % d) * TWO32 + l);
  }

  lemma SmallQuotient(v: int, d: int)
    requires d > 0 && -d <= v < d
    ensures v / d == if v < 0 then -1 else 0
  {
    if v < 0 { DivUnique(v, d, -1, v + d); } else { DivUnique(v, d, 0, v); }
  }

  lemma SignOfQuotient(v: int, d: int)
    requires d > 0
    ensures v < 0 <==> v / d < 0
  {
    DivMod(v, d);
    Mono(d, 0, v / d);
    Mono(d, v / d, -1);
  }

  lemma ShrSmall(x: Long, k: nat)
    requires IsLong(x) && 0 < k < 32
    ensures Value(x) / Pow2(k) == (x.high / Pow2(k)) * TWO32 + ToUint32(Or(Ushr(x.low, k), Shl(x.high, 32 - k)))
    ensures Wrap(x.signed, Value(x) / Pow2(k)) == Value(x) / Pow2(k)
  {
    hide Pow2, Or, Shl, Ushr, Wrap;
    Pow2Split(k);
    ShrLow(x.high, x.low, k);
    ShrSum(x.high, x.low, Pow2(k), Pow2(32 - k));
    ValueRange(x);
    QuotientRange(Value(x), Pow2(k), if x.signed then -TWO64 / 2 else 0, if x.signed then TWO64 / 2 else TWO64);
    WrapOfRange(x.signed, Value(x) / Pow2(k));
  }

  lemma ShrMiddle(x: Long, k: nat)
    requires IsLong(x) && 32 <= k < 64
    ensures Value(x) / Pow2(k) == x.high / Pow2(k - 32)
    ensures x.signed ==> -0x8000_0000 <= x.high / Pow2(k - 32) < 0x8000_0000
    ensures !x.signed ==> 0 <= x.high / Pow2(k - 32) < TWO32
    ensures x.high < 0 <==> x.high / Pow2(k - 32) < 0
  {
    hide Pow2;
    Pow2Middle(k);
    var d := Pow2(k - 32);
    HighQuotient(x.high, x.low, d);
    QuotientRange(x.high, d, if x.signed then -0x8000_0000 else 0, if x.signed then 0x8000_0000 else TWO32);
    SignOfQuotient(x.high, d);
  }

  /** The sign word above a 32-bit quotient. */
  lemma SignWord(q: int)
    requires -0x8000_0000 <= q < 0x8000_0000
    ensures (if q < 0 then -1 else 0) * TWO32 + ToUint32(q) == q
  { }

  lemma SarSign(h: int)
    requires -0x8000_0000 <= h < 0x8000_0000
    ensures Sar(h, 31) == if h < 0 then -1 else 0
  {
    hide Pow2;
    Pow32();
    SmallQuotient(h, Pow2(31));
  }

  lemma SarValue(h: int, k: nat)
    requires -0x8000_0000 <= h < 0x8000_0000 && k < 32
    ensures Sar(h, k) == h / Pow2(k)
  { }

  /** `x >> y` on a signed integer, for every count: the floor of the quotient. */
  lemma ShiftRightInt64Correct(x: Long, y: nat)
    requires IsLong(x) && x.signed
    ensures IsLong(ShiftRightInt64(x, y)) && Value(ShiftRightInt64(x, y)) == Value(x) / Pow2(y)
  {
    hide Or, Shl, Ushr, New, Wrap, Sar;
    ValueRange(x);
    if y == 0 {
    } else if y < 32 {
      hide Pow2;
      ShrSmall(x, y);
      SarValue(x.high, y);
      NewValue(true, Sar(x.high, y), ToUint32(Or(Ushr(x.low, y), Shl(x.high, 32 - y))));
    } else if y < 64 {
      hide Pow2;
      ShrMiddle(x, y);
      SarSign(x.high);
      SarValue(x.high, y - 32);
      SignWord(Sar(x.high, y - 32));
      NewValue(true, Sar(x.high, 31), ToUint32(Sar(x.high, y - 32)));
      WrapOfRange(true, Value(x) / Pow2(y));
    } else {
      hide Pow2;
      Pow2Large(y);
      SmallQuotient(Value(x), Pow2(y));
      NewValue(true, if x.high < 0 then -1 else 0, if x.high < 0 then 4294967295 else 0);
      WrapOfRange(true, Value(x) / Pow2(y));
    }
  }

  /** `x >> y` on an unsigned integer, for every count. */
  lemma ShiftRightUint64Correct(x: Long, y: nat)
    requires IsLong(x) && !x.signed
    ensures IsLong(ShiftRightUint64(x, y)) && Value(ShiftRightUint64(x, y)) == Value(x) / Pow2(y)
  {
    hide Or, Shl, Ushr, New, Wrap;
    ValueRange(x);
    if y == 0 {
    } else if y < 32 {
      hide Pow2;
      ShrSmall(x, y);
      UshrValue(x.high, y);
      NewValue(false, Ushr(x.high, y), ToUint32(Or(Ushr(x.low, y), Shl(x.high, 32 - y))));
    } else if y < 64 {
      hide Pow2;
      ShrMiddle(x, y);
      UshrValue(x.high, y - 32);
      NewValue(false, 0, Ushr(x.high, y - 32));
      WrapOfRange(false, Value(x) / Pow2(y));
    } else {
      hide Pow2;
      Pow2Large(y);
      SmallQuotient(Value(x), Pow2(y));
      NewValue(false, 0, 0);
      WrapOfRange(false, 0);
    }
  }
}
