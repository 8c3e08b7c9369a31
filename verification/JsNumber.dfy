/** The operators of JavaScript on integral numbers, as sections 6.1.6.1 and 7.1 of ECMA-262 define
    them.  A number is an int; where a double could not hold it exactly, Exact does not hold. */
module JsNumber {

  const TWO32 := 0x1_0000_0000
  const TWO64 := 0x1_0000_0000_0000_0000

  /** The integers that a double holds exactly, with their neighbours. */
  type Exact = x: int | -0x20_0000_0000_0000 < x < 0x20_0000_0000_0000

  function Pow2(k: nat): (p: nat)
    ensures p > 0
  {
    if k == 0 then 1 else 2 * Pow2(k - 1)
  }

  function ToUint32(x: int): (r: int)
    ensures 0 <= r < TWO32
  {
    x % TWO32
  }

  function ToInt32(x: int): (r: int)
    ensures -0x8000_0000 <= r < 0x8000_0000
  {
    if x % TWO32 < 0x8000_0000 then x % TWO32 else x % TWO32 - TWO32
  }

  function BitOr(a: nat, b: nat): nat {
    if a == 0 && b == 0 then 0
    else (if a % 2 == 1 || b % 2 == 1 then 1 else 0) + 2 * BitOr(a / 2, b / 2)
  }

  function BitAnd(a: nat, b: nat): nat {
    if a == 0 || b == 0 then 0
    else (if a % 2 == 1 && b % 2 == 1 then 1 else 0) + 2 * BitAnd(a / 2, b / 2)
  }

  function Or(x: int, y: int): (r: Exact)
    ensures -0x8000_0000 <= r < 0x8000_0000
  {
    ToInt32(BitOr(ToUint32(x), ToUint32(y)))
  }

  function And(x: int, y: int): Exact {
    ToInt32(BitAnd(ToUint32(x), ToUint32(y)))
  }

  function Not(x: int): Exact {
    -ToInt32(x) - 1
  }

  /** The shift operators, for counts below 32. */
  function Shl(x: int, k: nat): Exact
    requires k < 32
  {
    ToInt32(ToUint32(x) * Pow2(k))
  }

  function Ushr(x: int, k: nat): (r: int)
    requires k < 32
    ensures 0 <= r < TWO32
  {
    DivBounds(ToUint32(x), Pow2(k));
    ToUint32(x) / Pow2(k)
  }

  function Sar(x: int, k: nat): (r: int)
    requires k < 32
    ensures -0x8000_0000 <= r < 0x8000_0000
  {
    SarBounds(ToInt32(x), Pow2(k));
    ToInt32(x) / Pow2(k)
  }

  // ----- arithmetic -----

  lemma DivBounds(x: nat, d: nat)
    requires d > 0
    ensures 0 <= x / d <= x
  {
    DivMod(x, d);
    Mono(d, x / d, -1);
    MulMono(x / d, 1, d);
  }

  lemma SarBounds(x: int, d: nat)
    requires d > 0 && -0x8000_0000 <= x < 0x8000_0000
    ensures -0x8000_0000 <= x / d < 0x8000_0000
  {
    DivMod(x, d);
    var q := x / d;
    AtLeast(d, q, 0x8000_0000);
    AtLeast(d, -q - 1, 0x8000_0000);
    assert d * (-q - 1) == -(d * q) - d;
  }

  lemma AtLeast(d: int, q: int, k: nat)
    requires d > 0
    ensures q >= k ==> d * q >= k
  {
    if q >= k { MulMono(q, 1, d); }
  }

  lemma MulMono(a: nat, b: int, c: int)
    requires b <= c
    ensures a * b <= a * c
  { }

  lemma Mono(a: int, b: int, c: int)
    requires a >= 0
    ensures b <= c ==> a * b <= a * c
  { }

  /** A product of two half words. */
  lemma Product(a: int, b: int)
    requires 0 <= a < 65536 && 0 <= b < 65536
    ensures 0 <= a * b <= 65535 * 65535
  {
    MulMono(a, b, 65535);
    MulMono(65535, a, 65535);
    MulMono(a, 0, b);
  }

  lemma DivMod(x: int, d: int)
    requires d > 0
    ensures x == d * (x / d) + x % d && 0 <= x % d < d
  { }

  /** A quotient and a remainder are the only ones. */
  lemma DivUnique(x: int, d: int, q: int, r: int)
    requires d > 0 && x == d * q + r && 0 <= r < d
    ensures x / d == q && x % d == r
  {
    DivMod(x, d);
    assert d * (q - x / d) == x % d - r;
    Mono(d, 1, q - x / d);
    Mono(d, q - x / d, -1);
  }

  lemma SameRemainder(v: int, w: int, d: int, k: int)
    requires d > 0 && v == w + d * k
    ensures v % d == w % d
  {
    DivMod(w, d);
    assert v == d * (w / d + k) + w % d;
    DivUnique(v, d, w / d + k, w % d);
  }

  lemma {:induction false} Pow2Add(j: nat, k: nat)
    ensures Pow2(j + k) == Pow2(j) * Pow2(k)
  {
    if j > 0 {
      Pow2Add(j - 1, k);
      assert Pow2(j + k) == 2 * Pow2(j - 1 + k);
      assert Pow2(j) * Pow2(k) == 2 * (Pow2(j - 1) * Pow2(k));
    }
  }

  lemma Pow32()
    ensures Pow2(16) == 65536 && Pow2(31) == 0x8000_0000 && Pow2(32) == TWO32
  {
    assert Pow2(4) == 16;
    Pow2Add(4, 4);
    Pow2Add(8, 8);
    Pow2Add(16, 16);
    assert Pow2(32) == 2 * Pow2(31);
  }

  lemma Pow2Split(k: nat)
    requires k <= 32
    ensures Pow2(k) * Pow2(32 - k) == TWO32
  {
    hide Pow2;
    Pow2Add(k, 32 - k);
    Pow32();
  }

  // ----- bits -----

  /** Bits that do not overlap: the low k of one, the others of the other. */
  lemma {:induction false} OrIsSum(a: nat, b: nat, k: nat)
    requires b < Pow2(k)
    ensures BitOr(a * Pow2(k), b) == a * Pow2(k) + b
  {
    if k == 0 {
      OrZero(a);
    } else {
      var p := Pow2(k - 1);
      assert a * Pow2(k) == 2 * (a * p);
      DivUnique(a * Pow2(k), 2, a * p, 0);
      DivMod(b, 2);
      OrIsSum(a, b / 2, k - 1);
    }
  }

  lemma {:induction false} OrZero(a: nat)
    ensures BitOr(a, 0) == a
  {
    if a > 0 { OrZero(a / 2); }
  }

  lemma {:induction false} OrCommutes(a: nat, b: nat)
    ensures BitOr(a, b) == BitOr(b, a)
  {
    if a != 0 || b != 0 { OrCommutes(a / 2, b / 2); }
  }

  lemma {:induction false} AndIsMod(a: nat, k: nat)
    ensures BitAnd(a, Pow2(k) - 1) == a % Pow2(k)
  {
    hide BitAnd, Pow2;
    if k == 0 {
      PowZero();
      AndZero(a);
    } else {
      var p := Pow2(k - 1);
      PowStep(k);
      AndIsMod(a / 2, k - 1);
      Doubled(p);
      AndStep(a, 2 * p - 1);
      ModOfDouble(a, p);
    }
  }

  lemma AndZero(a: nat)
    ensures BitAnd(a, 0) == 0
  { }

  lemma PowStep(k: nat)
    requires k > 0
    ensures Pow2(k) == 2 * Pow2(k - 1)
  { }

  lemma AndStep(a: nat, b: nat)
    ensures BitAnd(a, b) == (if a % 2 == 1 && b % 2 == 1 then 1 else 0) + 2 * BitAnd(a / 2, b / 2)
  { }

  lemma Doubled(p: nat)
    requires p > 0
    ensures (2 * p - 1) / 2 == p - 1 && (2 * p - 1) % 2 == 1
  {
    DivUnique(2 * p - 1, 2, p - 1, 1);
  }

  lemma ModOfDouble(a: nat, p: nat)
    requires p > 0
    ensures a % (2 * p) == 2 * (a / 2 % p) + a % 2
  {
    DivMod(a, 2);
    DivMod(a / 2, p);
    assert (2 * p) * (a / 2 / p) == 2 * (p * (a / 2 / p));
    DivUnique(a, 2 * p, a / 2 / p, 2 * (a / 2 % p) + a % 2);
  }

  lemma And16(x: int)
    ensures And(x, 0xFFFF) == ToUint32(x) % 65536
  {
    hide BitAnd, Pow2;
    Pow32();
    AndIsMod(ToUint32(x), 16);
  }

  lemma Ushr16(x: int)
    ensures Ushr(x, 16) == ToUint32(x) / 65536
  {
    hide Pow2;
    Pow32();
  }

  /** `((a << 16) | b) >>> 0` on two halves of a word. */
  lemma Join16(a: int, b: int)
    requires 0 <= a < 65536 && 0 <= b < 65536
    ensures Ushr(Or(Shl(a, 16), b), 0) == a * 65536 + b
  {
    hide Pow2, BitOr;
    Pow32();
    ShlValue(a, 16);
    OrWords(Shl(a, 16), b, a, b, 16);
    assert Pow2(0) == 1 by { PowZero(); }
  }

  lemma PowZero()
    ensures Pow2(0) == 1
  { }

  /** `x << k` keeps the low 32 - k bits. */
  lemma ShlValue(x: int, k: nat)
    requires 0 <= x < TWO32 && k < 32
    ensures ToUint32(Shl(x, k)) == (x % Pow2(32 - k)) * Pow2(k) < TWO32
  {
    hide Pow2, ToInt32, ToUint32;
    Pow2Split(k);
    ScaledMod(x, Pow2(k), Pow2(32 - k));
    WordOf(x);
    WordOf(x * Pow2(k));
    SameWord(x * Pow2(k));
  }

  lemma WordOf(x: int)
    ensures ToUint32(x) == x % TWO32 && (0 <= x < TWO32 ==> ToUint32(x) == x)
  { }

  /** Scaling by p, and losing what then reaches 2^32. */
  lemma ScaledMod(x: int, p: int, q: int)
    requires p > 0 && q > 0 && p * q == TWO32 && x >= 0
    ensures x * p == TWO32 * (x / q) + (x % q) * p
    ensures x * p / TWO32 == x / q && x * p % TWO32 == (x % q) * p < TWO32
  {
    DivMod(x, q);
    assert (q * (x / q) + x % q) * p == (p * q) * (x / q) + (x % q) * p;
    FitsWord(x % q, 0, p, q);
    MulMono(p, 0, x % q);
    DivUnique(x * p, TWO32, x / q, (x % q) * p);
  }

  /** Reading a word as signed or unsigned changes nothing modulo 2^32. */
  lemma SameWord(x: int)
    ensures ToUint32(ToInt32(x)) == ToUint32(x) && ToInt32(ToUint32(x)) == ToInt32(x)
  { }

  lemma OrWords(x: int, y: int, a: nat, b: nat, k: nat)
    requires ToUint32(x) == a * Pow2(k) && ToUint32(y) == b < Pow2(k)
    requires a * Pow2(k) + b < TWO32
    ensures ToUint32(Or(x, y)) == a * Pow2(k) + b == ToUint32(Or(y, x))
  {
    hide Pow2, BitOr, ToInt32;
    OrIsSum(a, b, k);
    OrCommutes(ToUint32(x), ToUint32(y));
    SameWord(BitOr(ToUint32(x), ToUint32(y)));
  }

  lemma UshrValue(x: int, k: nat)
    requires 0 <= x < TWO32 && k < 32
    ensures Ushr(x, k) == x / Pow2(k) && ToUint32(Ushr(x, k)) == x / Pow2(k)
  { }

  lemma TopBits(l: int, p: int, q: int)
    requires 0 <= l < p * q && p > 0 && q > 0
    ensures 0 <= l / q < p
  {
    DivMod(l, q);
    Mono(q, p, l / q);
    Mono(q, l / q, -1);
  }

  lemma FitsWord(a: int, b: int, p: int, q: int)
    requires 0 <= a < q && 0 <= b < p && p * q == TWO32
    ensures a * p + b < TWO32
  {
    MulMono(p, a + 1, q);
  }

  /** The word that takes the high bits of one word and the top bits of another, as a left shift
      of two words does. */
  lemma ShlOr(h: int, l: int, k: nat)
    requires 0 <= h < TWO32 && 0 <= l < TWO32 && 0 < k < 32
    ensures ToUint32(Or(Shl(h, k), Ushr(l, 32 - k))) == (h % Pow2(32 - k)) * Pow2(k) + l / Pow2(32 - k)
    ensures ToUint32(Or(Ushr(l, 32 - k), Shl(h, k))) == (h % Pow2(32 - k)) * Pow2(k) + l / Pow2(32 - k)
    ensures l / Pow2(32 - k) < Pow2(k)
  {
    hide Pow2, Or, Shl;
    ShlValue(h, k);
    var p, q := Pow2(k), Pow2(32 - k);
    Pow2Split(k);
    DivMod(h, q);
    TopBits(l, p, q);
    FitsWord(h % q, l / q, p, q);
    hide ToUint32, Ushr;
    assert ToUint32(Ushr(l, 32 - k)) == l / q by { UshrValue(l, 32 - k); }
    OrWords(Shl(h, k), Ushr(l, 32 - k), h % q, l / q, k);
  }
}
