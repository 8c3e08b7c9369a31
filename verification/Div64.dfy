/** $div64 of compiler/prelude/numeric.js: quotient and remainder of 64-bit integers by shift and
    subtract, on two words. */
module Div64 {
  import opened JsNumber
  import opened Int64

  datatype Outcome = Panic | Quotient(r: Long) | Remainder(r: Long)

  function Abs(x: int): nat {
    if x < 0 then -x else x
  }

  function Sign(x: int): int {
    if x < 0 then -1 else 1
  }

  /** The quotient that the section "Integer operators" of the Go specification defines, truncated
      towards zero, and the remainder that goes with it. */
  function Quo(x: int, y: int): int
    requires y != 0
  {
    Sign(x) * Sign(y) * (Abs(x) / Abs(y))
  }

  function Rem(x: int, y: int): int
    requires y != 0
  {
    x - Quo(x, y) * y
  }

  /** What Go says of them: `x = q*y + r` and `|r| < |y|`, with r of the sign of x. */
  lemma QuoRem(x: int, y: int)
    requires y != 0
    ensures x == Quo(x, y) * y + Rem(x, y) && Abs(Rem(x, y)) < Abs(y)
    ensures Rem(x, y) != 0 ==> (Rem(x, y) < 0 <==> x < 0)
    ensures Rem(x, y) == Sign(x) * (Abs(x) % Abs(y))
  {
    DivMod(Abs(x), Abs(y));
    var q := Abs(x) / Abs(y);
    assert Sign(x) * Sign(y) * q * y == Sign(x) * (Abs(y) * q) by {
      assert Sign(y) * y == Abs(y);
      assert Sign(x) * Sign(y) * q * y == Sign(x) * ((Sign(y) * y) * q);
    }
  }

  /** A quotient fits, except the one of the most negative number and -1. */
  lemma QuoFits(x: Long, y: Long)
    requires IsLong(x) && IsLong(y) && x.signed == y.signed && Value(y) != 0
    ensures Wrap(x.signed, Quo(Value(x), Value(y))) == Quo(Value(x), Value(y))
            <==> !(x.signed && Value(x) == -TWO64 / 2 && Value(y) == -1)
    ensures Wrap(x.signed, Rem(Value(x), Value(y))) == Rem(Value(x), Value(y))
  {
    hide Wrap, Value, Quo, Rem;
    var a, b := Value(x), Value(y);
    ValueRange(x);
    ValueRange(y);
    QuoRem(a, b);
    WrapOfRange(x.signed, Rem(a, b)) by { RemRange(a, b); }
    QuoRange(a, b);
    if x.signed && a == -TWO64 / 2 && b == -1 {
      WrapIs(true, -TWO64 / 2, TWO64 / 2, -1);
    } else {
      WrapOfRange(x.signed, Quo(a, b));
    }
  }

  lemma RemRange(a: int, b: int)
    requires b != 0
    ensures a < 0 ==> a <= Rem(a, b) <= 0
    ensures a >= 0 ==> 0 <= Rem(a, b) <= a
  {
    QuoRem(a, b);
    DivMod(Abs(a), Abs(b));
    DivBounds(Abs(a), Abs(b));
    MulMono(Abs(b), 0, Abs(a) / Abs(b));
  }

  lemma QuoRange(a: int, b: int)
    requires b != 0
    ensures Abs(Quo(a, b)) <= Abs(a)
    ensures a >= 0 && b > 0 ==> Quo(a, b) >= 0
    ensures Quo(-TWO64 / 2, -1) == TWO64 / 2
    ensures a < 0 && Quo(a, b) == -a ==> b == -1
  {
    DivBounds(Abs(a), Abs(b));
    DivMod(Abs(a), Abs(b));
    Mono(Abs(a), 2, Abs(b));
  }

  // ----- pairs of words -----

  predicate Words(high: int, low: int) {
    0 <= high < TWO32 && 0 <= low < TWO32
  }

  function Val(high: int, low: int): int {
    high * TWO32 + low
  }

  lemma UshrZero(x: int)
    ensures Ushr(x, 0) == ToUint32(x)
  {
    PowZero();
  }

  lemma SmallPowers()
    ensures Pow2(1) == 2 && Pow2(31) == 0x8000_0000
  {
    Pow32();
    PowZero();
  }

  /** `high << 1 | low >>> 31` and `(low << 1) >>> 0`, when no bit is lost. */
  lemma DoubleWords(high: int, low: int)
    requires ToUint32(high) < 0x8000_0000 && 0 <= low < TWO32
    ensures Val(ToUint32(Or(Shl(high, 1), Ushr(low, 31))), Ushr(Shl(low, 1), 0)) == 2 * Val(ToUint32(high), low)
    ensures Words(ToUint32(Or(Shl(high, 1), Ushr(low, 31))), Ushr(Shl(low, 1), 0)) && Ushr(Shl(low, 1), 0) % 2 == 0
  {
    hide Pow2, Or, Shl, Ushr;
    SmallPowers();
    ShlSame(high, 1);
    ShlOr(ToUint32(high), low, 1);
    ShlValue(low, 1);
    UshrZero(Shl(low, 1));
    DivMod(low, 0x8000_0000);
  }

  /** `(low >>> 1 | high << 31) >>> 0` and `high >>> 1`. */
  lemma HalveWords(high: int, low: int)
    requires Words(high, low)
    ensures Val(Ushr(high, 1), Ushr(Or(Ushr(low, 1), Shl(high, 31)), 0)) == Val(high, low) / 2
    ensures Words(Ushr(high, 1), Ushr(Or(Ushr(low, 1), Shl(high, 31)), 0))
  {
    hide Pow2, Or, Shl, Ushr;
    SmallPowers();
    ShrLow(high, low, 1);
    ShrSum(high, low, 2, 0x8000_0000);
    UshrValue(high, 1);
    UshrZero(Or(Ushr(low, 1), Shl(high, 31)));
  }

  lemma ValBounds(high: int, low: int)
    requires Words(high, low)
    ensures 0 <= Val(high, low) < TWO64
  { }

  // ----- the algorithm -----

  /** Sign and magnitude, as $div64 takes them of both arguments. */
  method Magnitude(x: Long) returns (s: int, high: Exact, low: Exact)
    requires IsLong(x)
    ensures s == Sign(Value(x)) && Words(high, low) && Val(high, low) == Abs(Value(x))
  {
    s, high, low := 1, x.high, x.low;
    if high < 0 {
      s := -1;
      high := -high;
      if low != 0 {
        high := high - 1;
        low := 4294967296 - low;
      }
    }
  }

  lemma TwiceTimes(y: int, n: nat)
    ensures y * Pow2(n + 1) == 2 * (y * Pow2(n))
  { }

  /** So far x is q times t, and r less than t remains. */
  ghost predicate Divided(x: int, q: int, t: int, r: int) {
    x == q * t + r && 0 <= r < t && q >= 0
  }

  ghost predicate Scaled(t: int, y: int, k: nat) {
    t == y * Pow2(k) && y > 0 && t > 0
  }

  lemma ScaledHalf(t: int, y: int, k: nat)
    requires Scaled(t, y, k + 1)
    ensures t == 2 * (t / 2) && Scaled(t / 2, y, k)
  {
    TwiceTimes(y, k);
    MulMono(y, 1, Pow2(k));
  }

  lemma ScaledTwice(t: int, y: int, k: nat)
    requires Scaled(t, y, k)
    ensures Scaled(2 * t, y, k + 1)
  {
    TwiceTimes(y, k);
  }

  /** After a step of the second loop the quotient digit is right. */
  lemma Digit(x: int, q: int, r: int, d: int)
    requires Divided(x, q, 2 * d, r)
    ensures Divided(x, if r >= d then 2 * q + 1 else 2 * q, d, if r >= d then r - d else r)
    ensures (if r >= d then 2 * q + 1 else 2 * q) <= x
  {
    var p := if r >= d then 2 * q + 1 else 2 * q;
    assert q * (2 * d) == 2 * q * d;
    assert (2 * q + 1) * d == 2 * q * d + d;
    MulMono(p, 1, d);
  }

  lemma NothingDivided(x: int, t: int)
    requires 0 <= x < t
    ensures Divided(x, 0, t, x)
  { }

  /** The first loop: the divisor is doubled until it is no smaller than the dividend or fills its
      words. */
  method Normalise(xHigh: Exact, xLow: Exact, high: Exact, low: Exact) returns (yHigh: Exact, yLow: Exact, n: nat)
    requires Words(xHigh, xLow) && Words(high, low) && Val(high, low) > 0
    ensures Words(yHigh, yLow) && Scaled(Val(yHigh, yLow), Val(high, low), n) && Val(xHigh, xLow) < 2 * Val(yHigh, yLow)
  {
    yHigh, yLow, n := high, low, 0;
    PowZero();
    assert Scaled(Val(yHigh, yLow), Val(high, low), n);
    hide Pow2, Or, Shl, Ushr, Scaled, Val, Words, ToUint32;
    WordsSmall(xHigh, xLow);
    while yHigh < 2147483648 && (xHigh > yHigh || (xHigh == yHigh && xLow > yLow))
      invariant Words(yHigh, yLow) && Scaled(Val(yHigh, yLow), Val(high, low), n) && Val(yHigh, yLow) > 0
      decreases Val(xHigh, xLow) - Val(yHigh, yLow)
    {
      CompareWords(xHigh, xLow, yHigh, yLow);
      WordsSmall(yHigh, yLow);
      DoubleWords(yHigh, yLow);
      UshrZero(Or(Shl(yHigh, 1), Ushr(yLow, 31)));
      ScaledTwice(Val(yHigh, yLow), Val(high, low), n);
      yHigh, yLow := Ushr(Or(Shl(yHigh, 1), Ushr(yLow, 31)), 0), Ushr(Shl(yLow, 1), 0);
      n := n + 1;
    }
    CompareWords(xHigh, xLow, yHigh, yLow);
  }

  lemma WordsSmall(high: int, low: int)
    requires Words(high, low)
    ensures 0 <= high < TWO32 && 0 <= low < TWO32 && ToUint32(high) == high
  { }

  /** The guard of the first loop. */
  lemma CompareWords(xHigh: int, xLow: int, yHigh: int, yLow: int)
    requires Words(xHigh, xLow) && Words(yHigh, yLow)
    ensures (xHigh > yHigh || (xHigh == yHigh && xLow > yLow)) <==> Val(xHigh, xLow) > Val(yHigh, yLow)
    ensures yHigh >= 2147483648 ==> Val(xHigh, xLow) < 2 * Val(yHigh, yLow)
  { }

  /** The second loop: the digits of the quotient, from the top, and what remains.  The quotient's
      high word is kept as a signed one. */
  method Digits(ghost x0: int, ghost y0: int, n: nat, high0: Exact, low0: Exact, yHigh0: Exact, yLow0: Exact)
    returns (high: int, low: int, xHigh: Exact, xLow: Exact)
    requires Words(high0, low0) && Val(high0, low0) == x0 && y0 > 0
    requires Words(yHigh0, yLow0) && Scaled(Val(yHigh0, yLow0), y0, n) && x0 < 2 * Val(yHigh0, yLow0)
    ensures -0x8000_0000 <= high < 0x8000_0000 && Words(ToUint32(high), low) && Words(xHigh, xLow)
    ensures Divided(x0, Val(ToUint32(high), low), y0, Val(xHigh, xLow))
  {
    assert Val(ToUint32(0), 0) == 0 && Words(ToUint32(0), 0);
    hide Pow2, Or, Shl, Ushr, Val, ToUint32, Words, Scaled, Divided;
    xHigh, xLow := high0, low0;
    ValBounds(xHigh, xLow);
    var yHigh: Exact, yLow: Exact := yHigh0, yLow0;
    high, low := 0, 0;
    ghost var t, q := 2 * Val(yHigh, yLow), 0;
    ScaledTwice(Val(yHigh, yLow), y0, n);
    NothingDivided(x0, t);
    for i := 0 to n + 1
      invariant -0x8000_0000 <= high < 0x8000_0000 && Words(ToUint32(high), low) && Words(xHigh, xLow)
                && Words(yHigh, yLow)
      invariant Scaled(t, y0, n + 1 - i) && Divided(x0, q, t, Val(xHigh, xLow)) && q == Val(ToUint32(high), low)
      invariant i <= n ==> 2 * Val(yHigh, yLow) == t
    {
      ghost var d := Val(yHigh, yLow);
      DigitFits(x0, q, t, xHigh, xLow, yHigh, yLow);
      ScaledHalf(t, y0, n - i);
      high, low, xHigh, xLow := OneDigit(high, low, xHigh, xLow, yHigh, yLow);
      HalveWords(yHigh, yLow);
      HalfAgain(d, y0, n - i);
      yLow, yHigh := Ushr(Or(Ushr(yLow, 1), Shl(yHigh, 31)), 0), Ushr(yHigh, 1);
      t, q := d, Val(ToUint32(high), low);
    }
    assert n + 1 - (n + 1) == 0;
    LastDigit(x0, q, t, Val(xHigh, xLow), y0);
  }

  /** What the next digit makes of the quotient and the rest, and that it fits. */
  lemma DigitFits(x0: int, q: int, t: int, xHigh: int, xLow: int, yHigh: int, yLow: int)
    requires Words(xHigh, xLow) && Words(yHigh, yLow) && Divided(x0, q, t, Val(xHigh, xLow))
             && t == 2 * Val(yHigh, yLow)
    requires 0 <= x0 < TWO64
    ensures var r, d := Val(xHigh, xLow), Val(yHigh, yLow);
            && Divided(x0, if r >= d then 2 * q + 1 else 2 * q, d, if r >= d then r - d else r)
            && 2 * q + (if r >= d then 1 else 0) < TWO64
  {
    hide Val, Words, Divided;
    ValBounds(xHigh, xLow);
    Digit(x0, q, Val(xHigh, xLow), Val(yHigh, yLow));
  }

  lemma HalfAgain(d: int, y: int, k: nat)
    requires Scaled(d, y, k)
    ensures k > 0 ==> 2 * (d / 2) == d
  {
    hide Scaled;
    if k > 0 { ScaledHalf(d, y, k - 1); }
  }

  lemma LastDigit(x: int, q: int, t: int, r: int, y: int)
    requires Divided(x, q, t, r) && Scaled(t, y, 0)
    ensures Divided(x, q, y, r)
  {
    PowZero();
  }

  /** One digit: the quotient is doubled, and the divisor subtracted if it is not too large. */
  method OneDigit(high0: int, low0: int, xHigh0: Exact, xLow0: Exact, yHigh: Exact, yLow: Exact)
    returns (high: int, low: int, xHigh: Exact, xLow: Exact)
    requires -0x8000_0000 <= high0 < 0x8000_0000 && Words(ToUint32(high0), low0) && Words(xHigh0, xLow0)
             && Words(yHigh, yLow)
    requires 2 * Val(ToUint32(high0), low0) + (if Val(xHigh0, xLow0) >= Val(yHigh, yLow) then 1 else 0) < TWO64
    ensures -0x8000_0000 <= high < 0x8000_0000 && Words(ToUint32(high), low) && Words(xHigh, xLow)
    ensures var r, d := Val(xHigh0, xLow0), Val(yHigh, yLow);
            && Val(ToUint32(high), low) == 2 * Val(ToUint32(high0), low0) + (if r >= d then 1 else 0)
            && Val(xHigh, xLow) == if r >= d then r - d else r
  {
    hide Pow2, Or, Shl, Ushr;
    DoubleWords(high0, low0);
    high := Or(Shl(high0, 1), Ushr(low0, 31));
    low := Ushr(Shl(low0, 1), 0);
    xHigh, xLow := xHigh0, xLow0;
    if xHigh > yHigh || (xHigh == yHigh && xLow >= yLow) {
      xHigh := xHigh - yHigh;
      xLow := xLow - yLow;
      if xLow < 0 {
        xHigh := xHigh - 1;
        xLow := xLow + 4294967296;
      }
      low := low + 1;
      if low == 4294967296 {
        high := high + 1;
        low := 0;
      }
    }
  }

  /** $div64, for every pair of integers of one kind. */
  method Div64(x: Long, y: Long, returnRemainder: bool) returns (o: Outcome)
    requires IsLong(x) && IsLong(y) && x.signed == y.signed
    ensures o.Panic? <==> Value(y) == 0
    ensures Value(y) != 0 ==> if returnRemainder then o.Remainder? else o.Quotient?
    ensures !o.Panic? ==> IsLong(o.r) && o.r.signed == x.signed
    ensures o.Quotient? ==> Value(o.r) == Wrap(x.signed, Quo(Value(x), Value(y)))
    ensures o.Remainder? ==> Value(o.r) == Rem(Value(x), Value(y))
  {
    hide New, Wrap, Quo, Rem, Scaled, Divided;
    if y.high == 0 && y.low == 0 { return Panic; }
    var rs, xHigh, xLow := Magnitude(x);
    var s, yHigh, yLow := Magnitude(y);
    s := s * rs;
    ghost var x0, y0 := Val(xHigh, xLow), Val(yHigh, yLow);
    var n;
    yHigh, yLow, n := Normalise(xHigh, xLow, yHigh, yLow);
    var high, low;
    high, low, xHigh, xLow := Digits(x0, y0, n, xHigh, xLow, yHigh, yLow);
    Signed(x, y, high, low, xHigh, xLow);
    if returnRemainder { return Remainder(New(x.signed, xHigh * rs, xLow * rs)); }
    return Quotient(New(x.signed, high * s, low * s));
  }

  /** Putting the signs back. */
  lemma Signed(x: Long, y: Long, high: int, low: int, xHigh: int, xLow: int)
    requires IsLong(x) && IsLong(y) && x.signed == y.signed && Value(y) != 0
    requires -0x8000_0000 <= high < 0x8000_0000 && 0 <= low < TWO32 && Words(xHigh, xLow)
    requires Divided(Abs(Value(x)), Val(ToUint32(high), low), Abs(Value(y)), Val(xHigh, xLow))
    ensures var s := Sign(Value(y)) * Sign(Value(x));
            var q := New(x.signed, high * s, low * s);
            IsLong(q) && Value(q) == Wrap(x.signed, Quo(Value(x), Value(y))) && q.signed == x.signed
    ensures var r := New(x.signed, xHigh * Sign(Value(x)), xLow * Sign(Value(x)));
            IsLong(r) && Value(r) == Rem(Value(x), Value(y)) && r.signed == x.signed
  {
    hide New, Wrap, Value, ToUint32, Val;
    var a, b := Value(x), Value(y);
    var s := Sign(b) * Sign(a);
    ValBounds(xHigh, xLow);
    QuotientIs(a, b, Val(ToUint32(high), low), Val(xHigh, xLow));
    QuoFits(x, y);
    hide Quo, Rem;
    SignedWords(x.signed, high, low, s);
    SignedWords(x.signed, xHigh, xLow, Sign(a));
    assert ToUint32(xHigh) == xHigh by { WordIs(xHigh); }
  }

  lemma WordIs(w: int)
    requires 0 <= w < TWO32
    ensures ToUint32(w) == w
  { }

  lemma QuotientIs(a: int, b: int, q: int, r: int)
    requires b != 0 && Abs(a) == q * Abs(b) + r && 0 <= r < Abs(b)
    ensures Quo(a, b) == Sign(b) * Sign(a) * q && Rem(a, b) == Sign(a) * r
  {
    DivUnique(Abs(a), Abs(b), q, r);
    QuoRem(a, b);
  }

  /** A pair of words with a sign is worth the signed value, modulo 2^64. */
  lemma SignedWords(signed: bool, high: int, low: int, s: int)
    requires (s == 1 || s == -1) && -0x8000_0000 <= high < TWO32 && 0 <= low < TWO32
    ensures IsLong(New(signed, high * s, low * s)) && New(signed, high * s, low * s).signed == signed
    ensures Value(New(signed, high * s, low * s)) == Wrap(signed, s * Val(ToUint32(high), low))
  {
    hide New, Wrap;
    NewValue(signed, high * s, low * s);
    var c := if high < 0 then 1 else 0;
    assert s * Val(ToUint32(high), low) == high * s * TWO32 + low * s + TWO64 * (s * c);
    SameWrap(signed, high * s * TWO32 + low * s, s * Val(ToUint32(high), low), -(s * c));
  }

  lemma SameWrap(signed: bool, v: int, w: int, k: int)
    requires v == w + TWO64 * k
    ensures Wrap(signed, v) == Wrap(signed, w)
  {
    SameMod(v, w, k);
  }
}
