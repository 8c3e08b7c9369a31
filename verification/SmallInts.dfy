/** The integers of 8, 16 and 32 bits: fixNumber and the operators that compiler/expressions.go emits
    for them, against Go's arithmetic.  int, uint and uintptr have 32 bits. */
module SmallInts {
  import opened JsNumber
  import opened BinaryDigits
  import opened Div64

  datatype Kind = Kind(signed: bool, bits: nat)

  predicate IsKind(t: Kind) {
    t.bits == 8 || t.bits == 16 || t.bits == 32
  }

  predicate InRange(t: Kind, v: int)
    requires IsKind(t)
  {
    if t.signed then Least(t) <= v < Pow2(t.bits - 1) else 0 <= v < Pow2(t.bits)
  }

  /** The most negative number of a signed kind. */
  function Least(t: Kind): int
    requires IsKind(t) && t.signed
  {
    0 - Pow2(t.bits - 1)
  }

  /** The value of kind t that a mathematical integer wraps to. */
  function WrapTo(t: Kind, v: int): int
    requires IsKind(t)
  {
    if t.signed && v % Pow2(t.bits) >= Pow2(t.bits - 1) then v % Pow2(t.bits) - Pow2(t.bits) else v % Pow2(t.bits)
  }

  function FixNumber(t: Kind, v: Exact): (r: Exact)
    requires IsKind(t)
  {
    var k := 32 - t.bits;
    if k == 0 then (if t.signed then Sar(v, 0) else Ushr(v, 0))
    else if t.signed then Sar(Shl(v, k), k) else Ushr(Shl(v, k), k)
  }

  lemma SmallPowers(t: Kind)
    requires IsKind(t)
    ensures Pow2(t.bits) == 2 * Pow2(t.bits - 1) <= TWO32
    ensures Pow2(t.bits) == if t.bits == 8 then 256 else if t.bits == 16 then 65536 else TWO32
  {
    Pow32();
    assert Pow2(4) == 16;
    Pow2Add(4, 4);
  }

  lemma WrapsTo(t: Kind, v: int, w: int, c: int)
    requires IsKind(t) && InRange(t, w) && v == w + Pow2(t.bits) * c
    ensures WrapTo(t, v) == w
  {
    hide Pow2;
    SmallPowers(t);
    var p := Pow2(t.bits);
    if w >= 0 { DivUnique(v, p, c, w); } else {
      assert v == p * (c - 1) + (w + p);
      DivUnique(v, p, c - 1, w + p);
    }
  }

  lemma WrapRange(t: Kind, v: int)
    requires IsKind(t)
    ensures InRange(t, WrapTo(t, v)) && WrapTo(t, v) % Pow2(t.bits) == v % Pow2(t.bits)
    ensures InRange(t, v) <==> WrapTo(t, v) == v
  {
    hide Pow2;
    SmallPowers(t);
    var p := Pow2(t.bits);
    DivMod(v, p);
    var w := WrapTo(t, v);
    if w != v % p { SameRemainder(w, v % p, p, -1); }
    DivUnique(v % p, p, 0, v % p);
    if InRange(t, v) { WrapsTo(t, v, v, 0); }
  }

  lemma SameWrap(t: Kind, v: int, w: int)
    requires IsKind(t) && v % Pow2(t.bits) == w % Pow2(t.bits)
    ensures WrapTo(t, v) == WrapTo(t, w)
  { }

  /** The shifts up and down of fixNumber are the wrap-around of the kind. */
  lemma FixNumberWraps(t: Kind, v: Exact)
    requires IsKind(t)
    ensures FixNumber(t, v) == WrapTo(t, v) && InRange(t, FixNumber(t, v))
  {
    hide Pow2;
    SmallPowers(t);
    Pow32();
    PowZero();
    WrapRange(t, v);
    if t.bits < 32 { FixNarrow(t, v); }
  }

  lemma FixNarrow(t: Kind, v: Exact)
    requires IsKind(t) && t.bits < 32
    ensures FixNumber(t, v) == WrapTo(t, v)
  {
    hide Pow2;
    SmallPowers(t);
    var k := 32 - t.bits;
    var p, q := Pow2(t.bits), Pow2(k);
    Pow2Split(k);
    var m := v % p;
    ShiftedUp(v, k, p);
    var s := Shl(v, k);
    if t.signed {
      SignedTop(s, m, p, q);
    } else {
      DivUnique(m * q, q, m, 0);
    }
  }

  lemma ShiftedUp(v: int, k: nat, p: int)
    requires k < 32 && p == Pow2(32 - k)
    ensures ToUint32(Shl(v, k)) == v % p * Pow2(k)
  {
    hide Pow2, ToInt32;
    var q := Pow2(k);
    Pow2Split(k);
    ShlValue(ToUint32(v), k);
    ShlOfWord(v, k);
    DivMod(v, TWO32);
    var c := v / TWO32;
    assert TWO32 * c == p * (q * c);
    SameRemainder(v, ToUint32(v), p, q * c);
  }

  lemma ShlOfWord(v: int, k: nat)
    requires k < 32
    ensures Shl(ToUint32(v), k) == Shl(v, k)
  {
    hide Pow2, ToInt32;
    assert ToUint32(ToUint32(v)) == ToUint32(v);
  }

  /** A word whose top bits are m, read as signed and shifted back. */
  lemma SignedTop(s: int, m: int, p: int, q: int)
    requires 0 <= m < p && p % 2 == 0 && q > 0 && p * q == TWO32 && -0x8000_0000 <= s < 0x8000_0000
             && ToUint32(s) == m * q
    ensures s / q == if m >= p / 2 then m - p else m
  {
    assert 2 * (p / 2 * q) == TWO32;
    if m >= p / 2 {
      MulMono(q, p / 2, m);
      assert (m - p) * q == m * q - TWO32;
      DivUnique(s, q, m - p, 0);
    } else {
      MulMono(q, m + 1, p / 2);
      DivUnique(s, q, m, 0);
    }
  }

  // ----- addition, multiplication -----

  function Add(t: Kind, x: int, y: int): int
    requires IsKind(t) && InRange(t, x) && InRange(t, y)
  {
    SmallPowers(t);
    FixNumber(t, x + y)
  }

  function Sub(t: Kind, x: int, y: int): int
    requires IsKind(t) && InRange(t, x) && InRange(t, y)
  {
    SmallPowers(t);
    FixNumber(t, x - y)
  }

  /** $imul of compiler/prelude/numeric.js, where Math.imul is missing. */
  function Imul(a: int, b: int): Exact {
    var ah, al := And(Ushr(a, 16), 0xFFFF), And(a, 0xFFFF);
    var bh, bl := And(Ushr(b, 16), 0xFFFF), And(b, 0xFFFF);
    Halves(a);
    Halves(b);
    Product(al, bl);
    Product(ah, bl);
    Product(al, bh);
    var middle: Exact := Ushr(Shl(ah * bl + al * bh, 16), 0);
    var sum: Exact := al * bl + middle;
    Sar(sum, 0)
  }

  lemma Halves(a: int)
    ensures And(a, 0xFFFF) == ToUint32(a) % 65536 && And(Ushr(a, 16), 0xFFFF) == ToUint32(a) / 65536 < 65536
  {
    hide BitAnd, Pow2;
    And16(a);
    Ushr16(a);
    And16(Ushr(a, 16));
  }

  /** The replacement for Math.imul is Math.imul. */
  lemma ImulCorrect(a: int, b: int)
    ensures Imul(a, b) == ToInt32(a * b)
  {
    hide BitAnd, Pow2;
    Pow32();
    PowZero();
    Halves(a);
    Halves(b);
    var ah, al := And(Ushr(a, 16), 0xFFFF), And(a, 0xFFFF);
    var bh, bl := And(Ushr(b, 16), 0xFFFF), And(b, 0xFFFF);
    DivMod(ToUint32(a), 65536);
    DivMod(ToUint32(b), 65536);
    Product(al, bl);
    Product(ah, bl);
    Product(al, bh);
    var middle := Ushr(Shl(ah * bl + al * bh, 16), 0);
    HighHalf(ah * bl + al * bh);
    ImulSum(a, b, ah, al, bh, bl, middle);
  }

  lemma HighHalf(c: int)
    ensures Ushr(Shl(c, 16), 0) % TWO32 == (c * 65536) % TWO32
  {
    hide Pow2;
    Pow32();
    PowZero();
    DivMod(c, TWO32);
    assert c * 65536 == ToUint32(c) * 65536 + TWO32 * (c / TWO32 * 65536);
    SameRemainder(c * 65536, ToUint32(c) * 65536, TWO32, c / TWO32 * 65536);
  }

  lemma ImulSum(a: int, b: int, ah: int, al: int, bh: int, bl: int, middle: int)
    requires ToUint32(a) == 65536 * ah + al && ToUint32(b) == 65536 * bh + bl
    requires 0 <= ah * bl + al * bh < 2 * TWO32 && middle % TWO32 == ((ah * bl + al * bh) * 65536) % TWO32
    ensures ToInt32(al * bl + middle) == ToInt32(a * b)
  {
    var c := ah * bl + al * bh;
    DivMod(a, TWO32);
    DivMod(b, TWO32);
    DivMod(middle, TWO32);
    DivMod(c * 65536, TWO32);
    var i, j := a / TWO32, b / TWO32;
    assert (65536 * ah + al) * (65536 * bh + bl) == TWO32 * (ah * bh) + c * 65536 + al * bl by {
      assert (65536 * ah + al) * (65536 * bh + bl) == 65536 * ah * (65536 * bh + bl) + al * (65536 * bh + bl);
      assert 65536 * ah * (65536 * bh + bl) == TWO32 * (ah * bh) + 65536 * (ah * bl);
    }
    var u, v := 65536 * ah + al, 65536 * bh + bl;
    assert (TWO32 * i + u) * (TWO32 * j + v) == u * v + TWO32 * (i * (TWO32 * j + v) + u * j) by {
      assert (TWO32 * i + u) * (TWO32 * j + v) == TWO32 * (i * (TWO32 * j + v)) + u * (TWO32 * j + v);
      assert u * (TWO32 * j + v) == TWO32 * (u * j) + u * v;
    }
    var k := i * (TWO32 * j + v) + u * j + ah * bh + c * 65536 / TWO32 - middle / TWO32;
    assert a * b == al * bl + middle + TWO32 * k;
    SameRemainder(a * b, al * bl + middle, TWO32, k);
  }

  function Mul(t: Kind, x: int, y: int): int
    requires IsKind(t) && InRange(t, x) && InRange(t, y)
  {
    if t.bits == 32 then (if t.signed then Imul(x, y) else Ushr(Imul(x, y), 0))
    else
      NarrowProduct(t, x, y);
      FixNumber(t, x * y)
  }

  lemma NarrowProduct(t: Kind, x: int, y: int)
    requires IsKind(t) && t.bits < 32 && InRange(t, x) && InRange(t, y)
    ensures -TWO32 < x * y < TWO32
  {
    hide Pow2;
    SmallPowers(t);
    Product(Abs(x), Abs(y));
    assert x * y == Sign(x) * Sign(y) * (Abs(x) * Abs(y));
  }

  lemma AddCorrect(t: Kind, x: int, y: int)
    requires IsKind(t) && InRange(t, x) && InRange(t, y)
    ensures Add(t, x, y) == WrapTo(t, x + y) && Sub(t, x, y) == WrapTo(t, x - y)
  {
    hide Pow2, FixNumber, WrapTo;
    SmallPowers(t);
    FixNumberWraps(t, x + y);
    FixNumberWraps(t, x - y);
  }

  lemma MulCorrect(t: Kind, x: int, y: int)
    requires IsKind(t) && InRange(t, x) && InRange(t, y)
    ensures Mul(t, x, y) == WrapTo(t, x * y)
  {
    hide Pow2, FixNumber, Imul;
    SmallPowers(t);
    PowZero();
    if t.bits == 32 {
      ImulCorrect(x, y);
    } else {
      NarrowProduct(t, x, y);
      FixNumberWraps(t, x * y);
    }
  }

  // ----- division -----

  datatype Result = DivideByZero | Value(v: int)

  const TWO53 := 0x20_0000_0000_0000

  /** q is a double that x / y may be rounded to: exact when the quotient is an integer, and otherwise
      with a relative error of at most 2^-53. */
  predicate Rounded(x: int, y: int, q: real)
    requires y != 0
  {
    var e := q * y as real - x as real;
    && (x % y == 0 ==> e == 0.0)
    && -(Abs(x) as real) <= e * TWO53 as real <= Abs(x) as real
  }

  /** Towards zero, as `>>` and `>>>` convert their operand. */
  function Truncated(q: real): int {
    if q < 0.0 then -((-q).Floor) else q.Floor
  }

  /** `_q = x / y`, then a shift by 0 to cut off the decimals. */
  function Quotient(t: Kind, x: int, y: int, q: real): Result
    requires IsKind(t) && InRange(t, x) && InRange(t, y)
  {
    if y == 0 then DivideByZero
    else Value(if t.signed then ToInt32(Truncated(q)) else ToUint32(Truncated(q)))
  }

  function Remainder(t: Kind, x: int, y: int): Result
    requires IsKind(t) && InRange(t, x) && InRange(t, y)
  {
    if y == 0 then DivideByZero else Value(Rem(x, y))
  }

  lemma FloorIs(q: real, n: int)
    requires n as real <= q < (n + 1) as real
    ensures q.Floor == n
  { }

  /** Rounding cannot lift a quotient of words over the next integer. */
  lemma PositiveQuotient(a: nat, b: nat, q: real)
    requires 0 < b && a <= TWO32 && Rounded(a, b, q)
    ensures q.Floor == a / b && q >= 0.0
  {
    DivMod(a, b);
    var n, r := a / b, a % b;
    var e := q * b as real - a as real;
    SmallError(a, e);
    ToReal(b, n, r);
    RealBounds(b as real, n as real, r as real, q, e);
    FloorIs(q, n);
  }

  lemma SmallError(a: nat, e: real)
    requires a <= TWO32 && -(a as real) <= e * TWO53 as real <= a as real
    ensures -0.5 < e < 0.5
  { }

  lemma ToReal(b: int, n: int, r: int)
    ensures (b * n + r) as real == b as real * n as real + r as real
  { }

  lemma RealBounds(b: real, n: real, r: real, q: real, e: real)
    requires b >= 1.0 && 0.0 <= r <= b - 1.0 && -0.5 < e < 0.5 && (r == 0.0 ==> e == 0.0) && (r > 0.0 ==> r >= 1.0)
    requires q * b == b * n + r + e
    ensures n <= q < n + 1.0
  {
    Spread(b, q, n);
    var d, u := q - n, n + 1.0 - q;
    assert b * d == r + e && b * u == b - (r + e);
    assert r + e >= 0.0 && b - (r + e) > 0.0;
    RealSign(b, d);
    RealSign(b, u);
    assert d >= 0.0 && u > 0.0;
  }

  lemma Spread(b: real, q: real, n: real)
    ensures b * (q - n) == q * b - b * n && b * (n + 1.0 - q) == b - (q * b - b * n)
  { }

  lemma RealSign(b: real, x: real)
    requires b > 0.0
    ensures b * x >= 0.0 ==> x >= 0.0
    ensures b * x > 0.0 ==> x > 0.0
  { }

  lemma TruncatedQuotient(x: int, y: int, q: real)
    requires y != 0 && Abs(x) <= TWO32 && Rounded(x, y, q)
    ensures Truncated(q) == Quo(x, y)
  {
    var s := if Sign(x) == Sign(y) then q else -q;
    SameSize(x, y, q);
    PositiveQuotient(Abs(x), Abs(y), s);
    if x < 0 && y > 0 && s == 0.0 { assert q == 0.0; }
  }

  lemma SameSize(x: int, y: int, q: real)
    requires y != 0 && Rounded(x, y, q)
    ensures Rounded(Abs(x), Abs(y), if Sign(x) == Sign(y) then q else -q)
  {
    var s := if Sign(x) == Sign(y) then q else -q;
    var a, b := Abs(x) as real, Abs(y) as real;
    var e := q * y as real - x as real;
    assert s * b - a == if x < 0 then -e else e by {
      if Sign(x) == Sign(y) {
        if x < 0 { assert q * b == -(q * y as real); }
      } else if x < 0 {
        assert -q * b == -(q * y as real);
      } else {
        assert -q * b == q * y as real;
      }
    }
    assert Abs(x) % Abs(y) == 0 ==> x % y == 0 by {
      if Abs(x) % Abs(y) == 0 {
        DivMod(Abs(x), Abs(y));
        var n := Abs(x) / Abs(y);
        SignedMultiple(x, y, n);
      }
    }
  }

  lemma SignedMultiple(x: int, y: int, n: int)
    requires y != 0 && Abs(x) == Abs(y) * n
    ensures x % y == 0
  {
    var m := Sign(x) * n;
    assert x == Abs(y) * m;
    DivUnique(x, Abs(y), m, 0);
  }

  /** Division is Go's, except that int8 and int16 do not wrap when the most negative number is divided
      by -1; a zero divisor panics, and nothing else does. */
  lemma QuotientCorrect(t: Kind, x: int, y: int, q: real)
    requires IsKind(t) && InRange(t, x) && InRange(t, y) && (y != 0 ==> Rounded(x, y, q))
    ensures Quotient(t, x, y, q) == DivideByZero <==> y == 0
    ensures y != 0 ==> (Quotient(t, x, y, q) == Value(WrapTo(t, Quo(x, y)))
                        <==> !(t.signed && t.bits < 32 && x == Least(t) && y == -1))
  {
    if y != 0 {
      hide Pow2;
      SmallPowers(t);
      TruncatedQuotient(x, y, q);
      QuoRange(x, y);
      if y < 0 && y != -1 && x < 0 { QuoSmaller(x, y); }
      WrapRange(t, Quo(x, y));
    }
  }

  const INT8 := Kind(true, 8)
  const INT32 := Kind(true, 32)

  /** int8(-128) / -1 is emitted as 128; Go's value is -128. */
  lemma QuotientOfLeastInt8()
    ensures InRange(INT8, -128) && InRange(INT8, -1) && Rounded(-128, -1, 128.0)
    ensures Quotient(INT8, -128, -1, 128.0) == Value(128) && WrapTo(INT8, Quo(-128, -1)) == -128
  {
    hide Pow2;
    SmallPowers(INT8);
    QuoRange(-128, -1);
  }

  lemma QuoSmaller(x: int, y: int)
    requires x < 0 && y < -1
    ensures Quo(x, y) < -x
  {
    QuoRange(x, y);
  }

  lemma RemainderCorrect(t: Kind, x: int, y: int)
    requires IsKind(t) && InRange(t, x) && InRange(t, y)
    ensures Remainder(t, x, y) == DivideByZero <==> y == 0
    ensures y != 0 ==> Remainder(t, x, y).v == x - Quo(x, y) * y && InRange(t, Remainder(t, x, y).v)
  {
    if y != 0 { RemRange(x, y); }
  }

  // ----- shifts -----

  function ShiftLeft(t: Kind, x: int, y: nat): int
    requires IsKind(t) && InRange(t, x)
  {
    if y < 32 then FixNumber(t, Shl(x, y)) else FixNumber(t, 0)
  }

  /** The shift count is a variable. */
  function ShiftRight(t: Kind, x: int, y: nat): int
    requires IsKind(t) && InRange(t, x)
  {
    if t.signed then FixNumber(t, Sar(x, if y < 31 then y else 31))
    else if y < 32 then FixNumber(t, Ushr(x, y)) else FixNumber(t, 0)
  }

  /** The shift count is a constant. */
  function ShiftRightConst(t: Kind, x: int, y: nat): int
    requires IsKind(t) && InRange(t, x)
  {
    if y >= 32 then 0 else if t.signed then FixNumber(t, Sar(x, y)) else FixNumber(t, Ushr(x, y))
  }

  lemma ShiftLeftCorrect(t: Kind, x: int, y: nat)
    requires IsKind(t) && InRange(t, x)
    ensures ShiftLeft(t, x, y) == WrapTo(t, x * Pow2(y))
  {
    hide Pow2, FixNumber, WrapTo;
    SmallPowers(t);
    if y < 32 {
      FixNumberWraps(t, Shl(x, y));
      ShlWord(t, x, y);
    } else {
      FixNumberWraps(t, 0);
      ShiftedOut(t, x, y);
    }
  }

  lemma ShiftedOut(t: Kind, x: int, y: nat)
    requires IsKind(t) && y >= t.bits
    ensures WrapTo(t, 0) == WrapTo(t, x * Pow2(y))
  {
    hide Pow2, WrapTo;
    var p, q := Pow2(t.bits), Pow2(y - t.bits);
    Pow2Add(t.bits, y - t.bits);
    Regroup(x, p, q);
    SameRemainder(x * Pow2(y), 0, p, x * q);
    SameWrap(t, 0, x * Pow2(y));
  }

  lemma Regroup(x: int, p: int, q: int)
    ensures x * (p * q) == p * (x * q)
  { }

  lemma ShlWord(t: Kind, x: int, y: nat)
    requires IsKind(t) && y < 32
    ensures WrapTo(t, Shl(x, y)) == WrapTo(t, x * Pow2(y))
  {
    hide Pow2, WrapTo;
    Pow2Split(t.bits);
    var c := ScaledWord(x, Pow2(y));
    Regroup(c, Pow2(t.bits), Pow2(32 - t.bits));
    SameRemainder(x * Pow2(y), Shl(x, y), Pow2(t.bits), c * Pow2(32 - t.bits));
    SameWrap(t, Shl(x, y), x * Pow2(y));
  }

  lemma ScaledWord(x: int, p: nat) returns (c: int)
    ensures x * p == ToInt32(ToUint32(x) * p) + c * TWO32
  {
    DivMod(x, TWO32);
    var w := ToUint32(x) * p;
    DivMod(w, TWO32);
    assert x * p == w + TWO32 * (x / TWO32 * p);
    c := x / TWO32 * p + w / TWO32 + if w % TWO32 < 0x8000_0000 then 0 else 1;
  }

  lemma ShiftRightCorrect(t: Kind, x: int, y: nat)
    requires IsKind(t) && InRange(t, x)
    ensures ShiftRight(t, x, y) == x / Pow2(y)
  {
    hide Pow2, FixNumber, WrapTo, InRange;
    ShiftedRange(t, x, y);
    RangeIsExact(t, x / Pow2(y));
    FixNumberWraps(t, x / Pow2(y));
    WrapRange(t, x / Pow2(y));
    if y >= (if t.signed then 31 else 32) {
      FarShift(t, x, y);
      if t.signed { FarShift(t, x, 31); }
    }
    ShiftedWord(t, x, if t.signed && y > 31 then 31 else if y < 32 then y else 0);
    NotNegative(t, x);
  }

  lemma RangeIsExact(t: Kind, v: int)
    requires IsKind(t) && InRange(t, v)
    ensures -TWO32 <= v <= TWO32
  {
    hide Pow2;
    SmallPowers(t);
  }

  lemma NotNegative(t: Kind, x: int)
    requires IsKind(t) && InRange(t, x)
    ensures !t.signed ==> x >= 0
  { }

  lemma ShiftedWord(t: Kind, x: int, y: nat)
    requires IsKind(t) && InRange(t, x) && y < 32
    ensures t.signed ==> Sar(x, y) == x / Pow2(y)
    ensures !t.signed ==> Ushr(x, y) == x / Pow2(y)
  {
    hide Pow2;
    SmallPowers(t);
  }

  lemma ShiftedRange(t: Kind, x: int, y: nat)
    requires IsKind(t) && InRange(t, x)
    ensures InRange(t, x / Pow2(y))
  {
    hide Pow2;
    SmallPowers(t);
    var d := Pow2(y);
    DivMod(x, d);
    AtLeast(d, x / d, Pow2(if t.signed then t.bits - 1 else t.bits));
    AtLeast(d, -(x / d) - 1, if t.signed then Pow2(t.bits - 1) else 0);
    assert d * (-(x / d) - 1) == -(d * (x / d)) - d;
    if x >= 0 && x / d < 0 { Mono(d, x / d, -1); }
  }

  lemma {:induction false} LargePow2(k: nat)
    requires k >= 31
    ensures Pow2(k) >= Pow2(31)
  {
    if k > 31 { LargePow2(k - 1); }
  }

  /** A shift by 31 or more leaves the sign. */
  lemma FarShift(t: Kind, x: int, y: nat)
    requires IsKind(t) && InRange(t, x) && y >= (if t.signed then 31 else 32)
    ensures x / Pow2(y) == if x < 0 then -1 else 0
  {
    hide Pow2;
    SmallPowers(t);
    Pow32();
    LargePow2(y);
    if !t.signed { LargePow2(y - 1); PowStep(y); }
    DivUnique(x, Pow2(y), if x < 0 then -1 else 0, if x < 0 then x + Pow2(y) else x);
  }

  /** A constant count of 32 or more is not Go's shift on negative numbers: the emitted code is 0, not -1. */
  lemma ShiftRightConstCorrect(t: Kind, x: int, y: nat)
    requires IsKind(t) && InRange(t, x)
    ensures ShiftRightConst(t, x, y) == x / Pow2(y) <==> !(y >= 32 && x < 0)
  {
    hide Pow2, FixNumber, WrapTo, InRange;
    if y >= 32 {
      FarShift(t, x, y);
    } else {
      ShiftedRange(t, x, y);
      ShiftedWord(t, x, y);
      RangeIsExact(t, x / Pow2(y));
      FixNumberWraps(t, x / Pow2(y));
      WrapRange(t, x / Pow2(y));
    }
  }

  /** int32(-1) >> 32 is emitted as 0; Go's value is -1. */
  lemma ConstantShiftOfMinusOne()
    ensures InRange(INT32, -1) && ShiftRightConst(INT32, -1, 32) == 0 && -1 / Pow2(32) == -1
  {
    hide Pow2;
    SmallPowers(INT32);
    FarShift(INT32, -1, 32);
  }

  // ----- bitwise operators, negation -----

  function Bitwise(t: Kind, op: BitOp, x: int, y: int): int
    requires IsKind(t) && InRange(t, x) && InRange(t, y)
  {
    if op.XorOp? || op.AndNotOp? then FixNumber(t, Apply(op, x, y))
    else if t.signed then Apply(op, x, y) else Ushr(Apply(op, x, y), 0)
  }

  /** Each digit of the result is that of Go's operator, and without fixNumber `&` and `|` stay in range. */
  lemma BitwiseCorrect(t: Kind, op: BitOp, x: int, y: int)
    requires IsKind(t) && InRange(t, x) && InRange(t, y)
    ensures InRange(t, Bitwise(t, op, x, y))
    ensures forall k | 0 <= k < t.bits :: Bit(Bitwise(t, op, x, y), k) == Combine(op, Bit(x, k), Bit(y, k))
  {
    hide Pow2, Bit, FixNumber, WrapTo, Apply, ToUint32;
    var w := Apply(op, x, y);
    var r := Bitwise(t, op, x, y);
    if op.XorOp? || op.AndNotOp? {
      FixNumberWraps(t, w);
      WrapRange(t, w);
    } else {
      UnfixedRange(t, op, x, y);
    }
    forall k | 0 <= k < t.bits ensures Bit(r, k) == Combine(op, Bit(x, k), Bit(y, k)) {
      ApplyBits(op, x, y, k);
      if op.XorOp? || op.AndNotOp? {
        SameBits(r, w, t.bits, k);
      } else if !t.signed {
        WordBits(w, k);
        PowZero();
      }
    }
  }

  lemma UnfixedRange(t: Kind, op: BitOp, x: int, y: int)
    requires IsKind(t) && InRange(t, x) && InRange(t, y) && (op.AndOp? || op.OrOp?)
    ensures InRange(t, if t.signed then Apply(op, x, y) else Ushr(Apply(op, x, y), 0))
  {
    hide Pow2, Bit, Apply, ToUint32;
    SmallPowers(t);
    Pow32();
    PowZero();
    var w := Apply(op, x, y);
    ApplyBits(op, x, y, 31);
    if t.signed {
      var m := t.bits - 1;
      var b := Combine(op, if x < 0 then 1 else 0, if y < 0 then 1 else 0);
      forall k | m <= k <= 31 ensures Bit(w, k) == b {
        ApplyBits(op, x, y, k);
        SignBits(x, m, k);
        SignBits(y, m, k);
      }
      RangeOfBits(w, m, 31, b);
    } else {
      var r := ToUint32(w);
      forall k | t.bits <= k <= 32 ensures Bit(r, k) == 0 {
        if k == 32 { SignBits(r, 32, 32); } else {
          ApplyBits(op, x, y, k);
          SignBits(x, t.bits, k);
          SignBits(y, t.bits, k);
          WordBits(w, k);
        }
      }
      RangeOfBits(r, t.bits, 32, 0);
    }
  }

  function Negate(t: Kind, x: int): int
    requires IsKind(t) && InRange(t, x)
  {
    SmallPowers(t);
    if t.signed then -x else FixNumber(t, -x)
  }

  function Complement(t: Kind, x: int): int
    requires IsKind(t) && InRange(t, x)
  {
    FixNumber(t, Not(x))
  }

  /** The unary minus of signed numbers is emitted without fixNumber: it does not wrap. */
  lemma NegateCorrect(t: Kind, x: int)
    requires IsKind(t) && InRange(t, x)
    ensures Negate(t, x) == WrapTo(t, -x) <==> !(t.signed && x == Least(t))
  {
    hide Pow2, FixNumber;
    SmallPowers(t);
    FixNumberWraps(t, -x);
    WrapRange(t, -x);
  }

  /** -int8(-128) is emitted as 128; Go's value is -128. */
  lemma NegatedLeastInt8()
    ensures InRange(INT8, -128) && Negate(INT8, -128) == 128 && WrapTo(INT8, 128) == -128
  {
    hide Pow2;
    SmallPowers(INT8);
  }

  lemma ComplementCorrect(t: Kind, x: int)
    requires IsKind(t) && InRange(t, x)
    ensures InRange(t, Complement(t, x))
    ensures forall k | 0 <= k < t.bits :: Bit(Complement(t, x), k) == 1 - Bit(x, k)
  {
    hide Pow2, FixNumber, WrapTo, Bit, Not;
    FixNumberWraps(t, Not(x));
    WrapRange(t, Not(x));
    forall k | 0 <= k < t.bits ensures Bit(Complement(t, x), k) == 1 - Bit(x, k) {
      SameBits(Complement(t, x), Not(x), t.bits, k);
      NotWordBits(x, k);
    }
  }
}
