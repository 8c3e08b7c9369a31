/** The 32-bit functions of compiler/natives/src/math/bits/bits.go, in arithmetic that wraps. */
module Bits {
  import opened JsNumber

  type uint32 = x: int | 0 <= x < 0x1_0000_0000

  const TWO16 := 65536

  function PlusW(a: uint32, b: uint32): uint32 { (a + b) % TWO32 }

  function MinusW(a: uint32, b: uint32): uint32 { (a - b) % TWO32 }

  function TimesW(a: uint32, b: uint32): uint32 { (a * b) % TWO32 }

  /** Go's shifts: a count of 32 or more leaves nothing. */
  function ShiftLeft(a: uint32, s: nat): uint32 {
    (a * Pow2(s)) % TWO32
  }

  function ShiftRight(a: uint32, s: nat): uint32 {
    DivBounds(a, Pow2(s));
    a / Pow2(s)
  }

  /** The bitwise operators. */
  function AndW(a: uint32, b: uint32): uint32 {
    AndBounds(a, b);
    BitAnd(a, b)
  }

  function OrW(a: uint32, b: uint32): uint32 {
    Pow32();
    OrBounds(a, b, 32);
    BitOr(a, b)
  }

  lemma {:induction false} AndBounds(a: nat, b: nat)
    ensures BitAnd(a, b) <= a
  {
    if a != 0 && b != 0 { AndBounds(a / 2, b / 2); }
  }

  lemma {:induction false} OrBounds(a: nat, b: nat, k: nat)
    requires a < Pow2(k) && b < Pow2(k)
    ensures BitOr(a, b) < Pow2(k)
  {
    if k > 0 && (a != 0 || b != 0) { OrBounds(a / 2, b / 2, k - 1); }
  }

  datatype Result<T> = Panic(overflow: bool) | Value(v: T)

  // ----- Add32 -----

  function Top(a: nat, k: nat): nat {
    DivBounds(a, Pow2(k));
    a / Pow2(k)
  }

  lemma {:induction false} AndShift(a: nat, b: nat, k: nat)
    ensures Top(BitAnd(a, b), k) == BitAnd(Top(a, k), Top(b, k))
  {
    if k > 0 {
      AndShift(a, b, k - 1);
      var p := Pow2(k - 1);
      DivTwice(BitAnd(a, b), p);
      DivTwice(a, p);
      DivTwice(b, p);
    }
  }

  lemma {:induction false} OrShift(a: nat, b: nat, k: nat)
    ensures Top(BitOr(a, b), k) == BitOr(Top(a, k), Top(b, k))
  {
    if k > 0 {
      hide BitOr;
      OrShift(a, b, k - 1);
      var p := Pow2(k - 1);
      DivTwice(BitOr(a, b), p);
      DivTwice(a, p);
      DivTwice(b, p);
      OrHalf(a / p, b / p);
    }
  }

  lemma OrHalf(a: nat, b: nat)
    ensures BitOr(a, b) / 2 == BitOr(a / 2, b / 2)
  { }

  lemma DivTwice(x: nat, p: nat)
    requires p > 0
    ensures x / (2 * p) == x / p / 2
  {
    DivMod(x, p);
    DivMod(x / p, 2);
    var q, r := x / p / 2, x / p % 2;
    assert x == (2 * p) * q + (p * r + x % p) by { assert p * (2 * q + r) == (2 * p) * q + p * r; }
    DivUnique(x, 2 * p, q, p * r + x % p);
  }

  /** Add32: the sum with its carry is exact. */
  method Add32(x: uint32, y: uint32, carry: uint32) returns (sum: uint32, carryOut: uint32)
    requires carry <= 1
    ensures carryOut * TWO32 + sum == x + y + carry && carryOut <= 1
  {
    sum := PlusW(PlusW(x, y), carry);
    carryOut := ShiftRight(OrW(AndW(x, y), AndW(OrW(x, y), MinusW(TWO32 - 1, sum))), 31);
    TopBits(x, y, sum);
    CarryBit(x, y, carry);
    hide *;
  }

  /** The top bits of the summands and of the sum determine the carry. */
  lemma CarryBit(x: uint32, y: uint32, carry: uint32)
    requires carry <= 1
    ensures var sum := PlusW(PlusW(x, y), carry);
            var a, b, s := x / 0x8000_0000, y / 0x8000_0000, sum / 0x8000_0000;
            (if a + b == 2 || (a + b == 1 && s == 0) then 1 else 0) * TWO32 + sum == x + y + carry
  {
    var z := x + y + carry;
    if z < TWO32 {
      assert PlusW(PlusW(x, y), carry) == z;
    } else {
      assert PlusW(PlusW(x, y), carry) == z - TWO32;
    }
  }

  /** What is left of the carry expression after the shift by 31. */
  lemma TopBits(x: uint32, y: uint32, sum: uint32)
    ensures var a, b, s := x / 0x8000_0000, y / 0x8000_0000, sum / 0x8000_0000;
            ShiftRight(OrW(AndW(x, y), AndW(OrW(x, y), MinusW(TWO32 - 1, sum))), 31)
            == if a + b == 2 || (a + b == 1 && s == 0) then 1 else 0
  {
    hide Pow2, BitAnd, BitOr;
    var n := MinusW(TWO32 - 1, sum);
    Pow32();
    OrShift(AndW(x, y), AndW(OrW(x, y), n), 31);
    AndShift(x, y, 31);
    AndShift(OrW(x, y), n, 31);
    OrShift(x, y, 31);
    var a, b, c := x / 0x8000_0000, y / 0x8000_0000, n / 0x8000_0000;
    assert c == 1 - sum / 0x8000_0000;
    OneBit(a, b);
    OneBit(BitOr(a, b), c);
    OneBit(BitAnd(a, b), BitAnd(BitOr(a, b), c));
  }

  lemma OneBit(a: nat, b: nat)
    requires a <= 1 && b <= 1
    ensures BitAnd(a, b) == (if a + b == 2 then 1 else 0) && BitOr(a, b) == (if a + b >= 1 then 1 else 0)
  {
    assert BitOr(0, 0) == 0 && BitAnd(0, 0) == 0;
  }

  // ----- Mul32 -----

  lemma Halves(x: int)
    requires 0 <= x < TWO32
    ensures 0 <= x / TWO16 < TWO16 && x == (x / TWO16) * TWO16 + x % TWO16
  { }

  /** Mul32: the two words of the product. */
  method Mul32(x: uint32, y: uint32) returns (hi: uint32, lo: uint32)
    ensures hi * TWO32 + lo == x * y
  {
    var x0, x1 := x % TWO16, x / TWO16;
    var y0, y1 := y % TWO16, y / TWO16;
    Halves(x);
    Halves(y);
    HalfTimes(x0, y0);
    HalfTimes(x1, y0);
    HalfTimes(x0, y1);
    HalfTimes(x1, y1);
    WholeProduct(x, y);
    ghost var a, b, c, d := TimesW(x1, y1), TimesW(x1, y0), TimesW(x0, y1), TimesW(x0, y0);
    TopWord(x * y, a, b, c, d);
    var w0 := TimesW(x0, y0);
    var t := PlusW(TimesW(x1, y0), w0 / TWO16);
    var w1 := t % TWO16;
    var w2 := t / TWO16;
    w1 := PlusW(w1, TimesW(x0, y1));
    hi := PlusW(PlusW(TimesW(x1, y1), w2), w1 / TWO16);
    lo := TimesW(x, y);
    Carries(a, b, c, d);
  }

  /** Nothing in the computation of the high word wraps. */
  lemma Carries(a: uint32, b: uint32, c: uint32, d: uint32)
    requires b + d / TWO16 < TWO32
    requires var t := b + d / TWO16; t % TWO16 + c < TWO32 && a + t / TWO16 + (t % TWO16 + c) / TWO16 < TWO32
    ensures var t := PlusW(b, d / TWO16);
            PlusW(PlusW(a, t / TWO16), PlusW(t % TWO16, c) / TWO16)
                == a + (b + d / TWO16) / TWO16 + ((b + d / TWO16) % TWO16 + c) / TWO16
  {
    hide PlusW;
    var t := b + d / TWO16;
    NoWrap(b, d / TWO16);
    NoWrap(t % TWO16, c);
    NoWrap(a, t / TWO16);
    NoWrap(a + t / TWO16, (t % TWO16 + c) / TWO16);
  }

  lemma NoWrap(a: uint32, b: uint32)
    requires a + b < TWO32
    ensures PlusW(a, b) == a + b
  { }

  lemma WholeProduct(x: uint32, y: uint32)
    ensures x * y == (x / TWO16) * (y / TWO16) * TWO32
                     + ((x / TWO16) * (y % TWO16) + (x % TWO16) * (y / TWO16)) * TWO16 + (x % TWO16) * (y % TWO16)
    ensures 0 <= x * y < TWO64
  {
    Halves(x);
    Halves(y);
    SplitProduct(x % TWO16, x / TWO16, y % TWO16, y / TWO16);
    MulMono(x, y, TWO32);
    MulMono(TWO32, x, TWO32 - 1);
    MulMono(x, 0, y);
  }

  lemma HalfTimes(a: uint32, b: uint32)
    requires a < TWO16 && b < TWO16
    ensures TimesW(a, b) == a * b <= 65535 * 65535
  {
    Product(a, b);
  }

  lemma SplitProduct(x0: int, x1: int, y0: int, y1: int)
    ensures (x1 * TWO16 + x0) * (y1 * TWO16 + y0) == x1 * y1 * TWO32 + (x1 * y0 + x0 * y1) * TWO16 + x0 * y0
  { }

  /** The carries of the four products add up to the high word. */
  lemma TopWord(p: int, a: int, b: int, c: int, d: int)
    requires p == a * TWO32 + (b + c) * TWO16 + d && 0 <= a <= 65535 * 65535
    requires 0 <= b <= 65535 * 65535 && 0 <= c <= 65535 * 65535 && 0 <= d <= 65535 * 65535
    requires p < TWO64
    ensures var t := b + d / TWO16;
            0 <= t < TWO32 && t % TWO16 + c < TWO32 && a + t / TWO16 + (t % TWO16 + c) / TWO16 < TWO32
            && (a + t / TWO16 + (t % TWO16 + c) / TWO16) * TWO32 + p % TWO32 == p
  {
    var t := b + d / TWO16;
    var h := a + t / TWO16 + (t % TWO16 + c) / TWO16;
    var l := ((t % TWO16 + c) % TWO16) * TWO16 + d % TWO16;
    assert p == h * TWO32 + l && 0 <= l < TWO32;
    DivUnique(p, TWO32, h, l);
  }

  // ----- Div32 -----

  /** The number of leading zero bits, as math/bits has it. */
  function LeadingZeros32(x: uint32): (n: nat)
    requires x > 0
    ensures 0x8000_0000 <= x * Pow2(n) < TWO32
    decreases TWO32 - x
  {
    if x >= 0x8000_0000 then
      PowZero();
      0
    else
      var n := LeadingZeros32(2 * x);
      TimesTwice(x, n);
      n + 1
  }

  lemma TimesTwice(x: int, n: nat)
    ensures x * Pow2(n + 1) == 2 * x * Pow2(n)
  { }

  lemma LeadingBelow32(x: uint32)
    requires x > 0
    ensures LeadingZeros32(x) < 32
  {
    hide Pow2;
    var n := LeadingZeros32(x);
    LargePow(n);
    MulMono(Pow2(n), 1, x);
  }

  lemma LargePow(n: nat)
    ensures n >= 32 ==> Pow2(n) >= TWO32
  {
    hide Pow2;
    if n >= 32 {
      Pow32();
      Pow2Add(32, n - 32);
      MulMono(TWO32, 1, Pow2(n - 32));
    }
  }

  /** What the digit is of. */
  function Dividend(un: int, u: int): int {
    un * TWO16 + u
  }

  /** The quotient digit by the whole divisor is below 2^16 and no larger than the first guess, which
      is itself at most 2^16 + 1. */
  lemma FirstGuess(un: uint32, u: uint32, yn1: uint32, yn0: uint32, y: uint32)
    requires 0x8000 <= yn1 < TWO16 && yn0 < TWO16 && u < TWO16 && y == yn1 * TWO16 + yn0 && un < y
    ensures 0 <= Dividend(un, u) / y < TWO16 && Dividend(un, u) / y <= un / yn1 <= TWO16 + 1
    ensures un == (un / yn1) * yn1 + un % yn1
  {
    var n, q, t := Dividend(un, u), un / yn1, Dividend(un, u) / y;
    DivMod(n, y);
    DivMod(un, yn1);
    Mono(y, TWO16, t);
    Mono(y, t, -1);
    DigitBelowGuess(un, u, yn1, yn0, y, t);
    Mono(yn1, TWO16 + 2, q);
  }

  lemma DigitBelowGuess(un: int, u: int, yn1: int, yn0: int, y: int, t: int)
    requires yn1 > 0 && yn0 >= 0 && 0 <= u < TWO16 && y == yn1 * TWO16 + yn0 && 0 <= t && y * t <= Dividend(un, u)
    ensures t <= un / yn1
  {
    var q := un / yn1;
    DivMod(un, yn1);
    Mono(yn1, q + 1, t);
    assert (yn1 * TWO16 + yn0) * t == yn1 * t * TWO16 + yn0 * t;
    Mono(yn0, 0, t);
    assert yn1 * (q + 1) == yn1 * q + yn1;
  }

  /** The test of the correction loop: the guess exceeds the digit exactly when it holds. */
  lemma Guess(un: int, u: int, yn1: int, yn0: int, y: int, q: int, rhat: int)
    requires y == yn1 * TWO16 + yn0 && y > 0 && un == q * yn1 + rhat
    ensures q * yn0 > TWO16 * rhat + u <==> Dividend(un, u) / y < q
  {
    var n, t := Dividend(un, u), Dividend(un, u) / y;
    DivMod(n, y);
    assert q * y == q * yn1 * TWO16 + q * yn0 by { assert q * (yn1 * TWO16 + yn0) == q * yn1 * TWO16 + q * yn0; }
    Mono(y, t + 1, q);
    Mono(y, q, t);
  }

  lemma SmallProduct(q: int, yn0: int)
    requires 0 <= q <= TWO16 && 0 <= yn0 < TWO16
    ensures 0 <= q * yn0 <= TWO16 * yn0 < TWO32
  {
    MulMono(yn0, q, TWO16);
    MulMono(q, 0, yn0);
  }

  lemma WrapExact(a: int)
    requires 0 <= a < TWO32
    ensures a % TWO32 == a
  { }

  /** A wrapped computation whose true result fits is exact. */
  lemma WrappedRemainder(un: uint32, u: uint32, q: uint32, y: uint32, r: int)
    requires Dividend(un, u) == q * y + r && 0 <= r < TWO32
    ensures MinusW(PlusW(TimesW(un, TWO16), u), TimesW(q, y)) == r
  {
    var a, b := un * TWO16, q * y;
    DivMod(a, TWO32);
    DivMod(b, TWO32);
    DivMod(a % TWO32 + u, TWO32);
    SameRemainder((a % TWO32 + u) % TWO32 - b % TWO32, r, TWO32, b / TWO32 - a / TWO32 - (a % TWO32 + u) / TWO32);
    WrapExact(r);
  }

  /** One digit of the quotient of un:u by y = yn1:yn0, as Div32 computes it twice: the quotient by yn1
      alone is corrected until it fits; the remainder follows. */
  method Digit(un: uint32, u: uint32, yn1: uint32, yn0: uint32, y: uint32) returns (q: uint32, r: uint32)
    requires 0x8000 <= yn1 < TWO16 && yn0 < TWO16 && u < TWO16 && y == yn1 * TWO16 + yn0 && un < y
    ensures Dividend(un, u) == q * y + r && r < y && q < TWO16
  {
    hide TimesW, PlusW, MinusW, Dividend;
    FirstGuess(un, u, yn1, yn0, y);
    ghost var t := Dividend(un, u) / y;
    q := un / yn1;
    var rhat := MinusW(un, TimesW(q, yn1));
    FirstRemainder(un, q, yn1);
    while q >= TWO16 || TimesW(q, yn0) > PlusW(TimesW(TWO16, rhat), u)
      invariant rhat < TWO16 && un == q * yn1 + rhat && t <= q <= TWO16 + 1
      decreases q
    {
      Guess(un, u, yn1, yn0, y, q, rhat);
      if q < TWO16 { TestExact(q, yn0, rhat, u); }
      StepBack(q, yn1, rhat);
      q := MinusW(q, 1);
      rhat := PlusW(rhat, yn1);
      if rhat >= TWO16 { break; }
    }
    Guess(un, u, yn1, yn0, y, q, rhat);
    if rhat < TWO16 { TestExact(q, yn0, rhat, u); } else { SmallProduct(q, yn0); }
    DivMod(Dividend(un, u), y);
    WrappedRemainder(un, u, q, y, Dividend(un, u) % y);
    r := MinusW(PlusW(TimesW(un, TWO16), u), TimesW(q, y));
  }

  lemma FirstRemainder(un: uint32, q: uint32, yn1: uint32)
    requires 0 < yn1 && un == q * yn1 + un % yn1
    ensures MinusW(un, TimesW(q, yn1)) == un % yn1
  {
    DivMod(un, yn1);
    MulMono(yn1, 0, q);
    WrapExact(q * yn1);
    WrapExact(un % yn1);
  }

  /** The two sides of the test, when they are compared, have not wrapped. */
  lemma TestExact(q: uint32, yn0: uint32, rhat: uint32, u: uint32)
    requires q < TWO16 && yn0 < TWO16 && rhat < TWO16 && u < TWO16
    ensures TimesW(q, yn0) == q * yn0 && PlusW(TimesW(TWO16, rhat), u) == TWO16 * rhat + u
  {
    SmallProduct(q, yn0);
    WrapExact(q * yn0);
    WrapExact(TWO16 * rhat);
    WrapExact(TWO16 * rhat + u);
  }

  lemma StepBack(q: uint32, yn1: uint32, rhat: uint32)
    requires q >= 1 && rhat < TWO16 && yn1 < TWO16
    ensures MinusW(q, 1) == q - 1 && PlusW(rhat, yn1) == rhat + yn1
    ensures q * yn1 + rhat == (q - 1) * yn1 + (rhat + yn1)
  { }

  /** Shifting dividend and divisor left until the divisor's top bit is set scales both, and loses
      nothing. */
  lemma Normalised(hi: uint32, lo: uint32, y: uint32, s: nat)
    requires s < 32 && hi < y && 0x8000_0000 <= y * Pow2(s) < TWO32
    ensures var yy := ShiftLeft(y, s);
            var un16 := OrW(ShiftLeft(hi, s), ShiftRight(lo, 32 - s));
            && yy == y * Pow2(s) && un16 < yy
            && un16 * TWO32 + ShiftLeft(lo, s) == (hi * TWO32 + lo) * Pow2(s)
  {
    hide Pow2, BitOr;
    var p, q := Pow2(s), Pow2(32 - s);
    Pow2Split(s);
    ScaledMod(lo, p, q);
    NormalisedWords(hi, lo, y, p, q);
    OrIsSum(hi, lo / q, s);
  }

  lemma NormalisedWords(hi: int, lo: int, y: int, p: int, q: int)
    requires p > 0 && q > 0 && p * q == TWO32 && 0 <= hi < y && 0 <= lo < TWO32 && 0 <= y * p < TWO32
    requires lo * p == TWO32 * (lo / q) + lo * p % TWO32
    ensures y * p % TWO32 == y * p && hi * p % TWO32 == hi * p && 0 <= lo / q < p
    ensures hi * p + lo / q < y * p
    ensures (hi * p + lo / q) * TWO32 + lo * p % TWO32 == (hi * TWO32 + lo) * p
  {
    MulMono(p, hi + 1, y);
    MulMono(p, 0, hi);
    WrapExact(y * p);
    WrapExact(hi * p);
    TopBitsOf(lo, p, q);
    assert (hi * TWO32 + lo) * p == hi * p * TWO32 + lo * p;
  }

  lemma TopBitsOf(l: int, p: int, q: int)
    requires 0 <= l < TWO32 && p > 0 && q > 0 && p * q == TWO32
    ensures 0 <= l / q < p
  {
    JsNumber.TopBits(l, p, q);
  }

  /** The two digits and the last remainder, taken back to the original scale. */
  lemma TwoDigits(n: int, y: int, p: int, un16: int, un1: int, un0: int, yy: int, q1: int, un21: int, q0: int, rem: int)
    requires p > 0 && yy == y * p && un16 * TWO32 + (un1 * TWO16 + un0) == n * p
    requires Dividend(un16, un1) == q1 * yy + un21 && Dividend(un21, un0) == q0 * yy + rem && 0 <= rem < yy
    ensures n == (q1 * TWO16 + q0) * y + rem / p && rem / p < y
  {
    var q := q1 * TWO16 + q0;
    assert n * p == q * yy + rem by { assert (q1 * TWO16 + q0) * yy == q1 * yy * TWO16 + q0 * yy; }
    assert rem == p * (n - q * y) by {
      assert q * (y * p) == p * (q * y);
      assert p * (n - q * y) == n * p - p * (q * y);
    }
    DivUnique(rem, p, n - q * y, 0);
    Mono(p, y, n - q * y);
  }

  lemma QuotientWord(q1: uint32, q0: uint32)
    requires q1 < TWO16 && q0 < TWO16
    ensures PlusW(TimesW(q1, TWO16), q0) == q1 * TWO16 + q0
  { }

  /** Div32: quotient and remainder of the double word hi:lo. */
  method Div32(hi: uint32, lo: uint32, y: uint32) returns (r: Result<(uint32, uint32)>)
    ensures r == Panic(false) <==> y == 0
    ensures r == Panic(true) <==> 0 < y <= hi
    ensures r.Value? ==> hi * TWO32 + lo == r.v.0 * y + r.v.1 && r.v.1 < y
  {
    if y == 0 { return Panic(false); }
    if y <= hi { return Panic(true); }
    var s := LeadingZeros32(y);
    LeadingBelow32(y);
    var yy := ShiftLeft(y, s);
    var yn1 := yy / TWO16;
    var yn0 := yy % TWO16;
    var un16 := OrW(ShiftLeft(hi, s), ShiftRight(lo, 32 - s));
    var un10 := ShiftLeft(lo, s);
    Normalised(hi, lo, y, s);
    var un1 := un10 / TWO16;
    var un0 := un10 % TWO16;
    var q1, un21 := Digit(un16, un1, yn1, yn0, yy);
    var q0, rem := Digit(un21, un0, yn1, yn0, yy);
    TwoDigits(hi * TWO32 + lo, y, Pow2(s), un16, un1, un0, yy, q1, un21, q0, rem);
    QuotientWord(q1, q0);
    return Value((PlusW(TimesW(q1, TWO16), q0), ShiftRight(rem, s)));
  }

  /** Rem32: the remainder of the double word, also when the quotient does not fit. */
  method Rem32(hi: uint32, lo: uint32, y: uint32) returns (r: Result<uint32>)
    ensures r.Panic? <==> y == 0
    ensures r.Panic? ==> !r.overflow
    ensures r.Value? ==> r.v == (hi * TWO32 + lo) % y
  {
    if y == 0 { return Panic(false); }
    var d := Div32(hi % y, lo, y);
    var k := hi / y;
    DivMod(hi, y);
    var n := (hi % y) * TWO32 + lo;
    DivUnique(n, y, d.v.0, d.v.1);
    assert hi * TWO32 + lo == n + y * (k * TWO32) by {
      assert (y * k + hi % y) * TWO32 == y * (k * TWO32) + (hi % y) * TWO32;
    }
    SameRemainder(hi * TWO32 + lo, n, y, k * TWO32);
    return Value(d.v.1);
  }
}
