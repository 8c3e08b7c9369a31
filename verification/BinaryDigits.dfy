/** Integers as their binary digits, two's complement without end to the left: what Go's bitwise
    operators are defined on, and what the word operators of JavaScript do to it. */
module BinaryDigits {
  import opened JsNumber

  function Bit(v: int, k: nat): (b: nat)
    ensures b <= 1
    decreases k
  {
    if k == 0 then v % 2 else Bit(v / 2, k - 1)
  }

  datatype BitOp = AndOp | OrOp | XorOp | AndNotOp

  /** One digit of `x op y`. */
  function Combine(op: BitOp, a: nat, b: nat): nat {
    match op
    case AndOp => if a == 1 && b == 1 then 1 else 0
    case OrOp => if a == 1 || b == 1 then 1 else 0
    case XorOp => if a != b then 1 else 0
    case AndNotOp => if a == 1 && b == 0 then 1 else 0
  }

  function BitXor(a: nat, b: nat): nat {
    if a == 0 && b == 0 then 0
    else (if a % 2 != b % 2 then 1 else 0) + 2 * BitXor(a / 2, b / 2)
  }

  function Xor(x: int, y: int): (r: Exact)
    ensures -0x8000_0000 <= r < 0x8000_0000
  {
    ToInt32(BitXor(ToUint32(x), ToUint32(y)))
  }

  // ----- digits of the word operators -----

  lemma {:induction false} AndBits(a: nat, b: nat, k: nat)
    ensures Bit(BitAnd(a, b), k) == Combine(AndOp, Bit(a, k), Bit(b, k))
  {
    AndStep(a, b);
    if k > 0 { AndBits(a / 2, b / 2, k - 1); }
  }

  lemma {:induction false} OrBits(a: nat, b: nat, k: nat)
    ensures Bit(BitOr(a, b), k) == Combine(OrOp, Bit(a, k), Bit(b, k))
  {
    if k > 0 { OrBits(a / 2, b / 2, k - 1); }
  }

  lemma {:induction false} XorBits(a: nat, b: nat, k: nat)
    ensures Bit(BitXor(a, b), k) == Combine(XorOp, Bit(a, k), Bit(b, k))
  {
    if k > 0 { XorBits(a / 2, b / 2, k - 1); }
  }

  lemma {:induction false} NotBits(v: int, k: nat)
    ensures Bit(-v - 1, k) == 1 - Bit(v, k)
    decreases k
  {
    if k > 0 {
      assert (-v - 1) / 2 == -(v / 2) - 1;
      NotBits(v / 2, k - 1);
    }
  }

  lemma HalfOfSum(h: int, l: int, p: nat)
    requires p > 0
    ensures (h * (2 * p) + l) / 2 == h * p + l / 2 && (h * (2 * p) + l) % 2 == l % 2
  {
    assert h * (2 * p) == 2 * (h * p);
    DivMod(l, 2);
    DivUnique(h * (2 * p) + l, 2, h * p + l / 2, l % 2);
  }

  /** The digits of two numbers written one after the other. */
  lemma {:induction false} SumBits(h: int, l: int, n: nat, k: nat)
    requires 0 <= l < Pow2(n)
    ensures Bit(h * Pow2(n) + l, k) == if k < n then Bit(l, k) else Bit(h, k - n)
    decreases n
  {
    if n > 0 {
      HalfOfSum(h, l, Pow2(n - 1));
      if k > 0 { SumBits(h, l / 2, n - 1, k - 1); }
    }
  }

  lemma ModBits(v: int, n: nat, k: nat)
    requires k < n
    ensures Bit(v % Pow2(n), k) == Bit(v, k)
  {
    hide Bit, Pow2;
    DivMod(v, Pow2(n));
    SumBits(v / Pow2(n), v % Pow2(n), n, k);
  }

  /** Numbers that differ by a multiple of 2^n have the same low digits. */
  lemma SameBits(v: int, w: int, n: nat, k: nat)
    requires k < n && v % Pow2(n) == w % Pow2(n)
    ensures Bit(v, k) == Bit(w, k)
  {
    hide Bit, Pow2;
    ModBits(v, n, k);
    ModBits(w, n, k);
  }

  lemma WordBits(x: int, k: nat)
    requires k < 32
    ensures Bit(ToUint32(x), k) == Bit(x, k) && Bit(ToInt32(x), k) == Bit(x, k)
  {
    hide Bit, Pow2;
    Pow32();
    SameBits(ToUint32(x), x, 32, k);
    SameBits(ToInt32(x), x, 32, k);
  }

  /** What the emitted code computes on words. */
  function Apply(op: BitOp, x: int, y: int): (r: Exact) {
    match op
    case AndOp => And(x, y)
    case OrOp => Or(x, y)
    case XorOp => Xor(x, y)
    case AndNotOp => And(x, Not(y))
  }

  lemma AndWordBits(x: int, y: int, k: nat)
    requires k < 32
    ensures Bit(And(x, y), k) == Combine(AndOp, Bit(x, k), Bit(y, k))
  {
    hide Bit, BitAnd, ToUint32, ToInt32, Combine;
    WordBits(x, k);
    WordBits(y, k);
    AndBits(ToUint32(x), ToUint32(y), k);
    WordBits(BitAnd(ToUint32(x), ToUint32(y)), k);
  }

  lemma OrWordBits(x: int, y: int, k: nat)
    requires k < 32
    ensures Bit(Or(x, y), k) == Combine(OrOp, Bit(x, k), Bit(y, k))
  {
    hide Bit, BitOr, ToUint32, ToInt32, Combine;
    WordBits(x, k);
    WordBits(y, k);
    OrBits(ToUint32(x), ToUint32(y), k);
    WordBits(BitOr(ToUint32(x), ToUint32(y)), k);
  }

  lemma XorWordBits(x: int, y: int, k: nat)
    requires k < 32
    ensures Bit(Xor(x, y), k) == Combine(XorOp, Bit(x, k), Bit(y, k))
  {
    hide Bit, BitXor, ToUint32, ToInt32, Combine;
    WordBits(x, k);
    WordBits(y, k);
    XorBits(ToUint32(x), ToUint32(y), k);
    WordBits(BitXor(ToUint32(x), ToUint32(y)), k);
  }

  lemma NotWordBits(x: int, k: nat)
    requires k < 32
    ensures Bit(Not(x), k) == 1 - Bit(x, k)
  {
    hide Bit, ToInt32;
    WordBits(x, k);
    NotBits(ToInt32(x), k);
  }

  lemma ApplyBits(op: BitOp, x: int, y: int, k: nat)
    requires k < 32
    ensures Bit(Apply(op, x, y), k) == Combine(op, Bit(x, k), Bit(y, k))
    ensures -0x8000_0000 <= Apply(op, x, y) < 0x8000_0000
  {
    hide Bit, And, Or, Xor, Not;
    WordRange(op, x, y);
    match op
    case AndOp => AndWordBits(x, y, k);
    case OrOp => OrWordBits(x, y, k);
    case XorOp => XorWordBits(x, y, k);
    case AndNotOp =>
      AndWordBits(x, Not(y), k);
      NotWordBits(y, k);
  }

  lemma WordRange(op: BitOp, x: int, y: int)
    ensures -0x8000_0000 <= Apply(op, x, y) < 0x8000_0000
  {
    hide BitAnd;
  }

  // ----- digits and ranges -----

  /** Beyond its m low digits a number in -2^m .. 2^m - 1 repeats its sign. */
  lemma {:induction false} SignBits(v: int, m: nat, k: nat)
    requires 0 - Pow2(m) <= v < Pow2(m) && m <= k
    ensures Bit(v, k) == if v < 0 then 1 else 0
    decreases k
  {
    if k > 0 { SignBits(v / 2, if m > 0 then m - 1 else 0, k - 1); }
  }

  /** And conversely. */
  lemma {:induction false} RangeOfBits(v: int, m: nat, n: nat, b: nat)
    requires m <= n && 0 - Pow2(n) <= v < Pow2(n)
    requires forall k | m <= k <= n :: Bit(v, k) == b
    ensures if b == 0 then 0 <= v < Pow2(m) else 0 - Pow2(m) <= v < 0
    decreases n
  {
    assert Bit(v, n) == b;
    SignBits(v, n, n);
    if m > 0 {
      forall k | m - 1 <= k <= n - 1 ensures Bit(v / 2, k) == b { assert Bit(v, k + 1) == b; }
      RangeOfBits(v / 2, m - 1, n - 1, b);
    } else if n > 0 {
      assert Bit(v, 0) == b;
      forall k | 0 <= k <= n - 1 ensures Bit(v / 2, k) == b { assert Bit(v, k + 1) == b; }
      RangeOfBits(v / 2, 0, n - 1, b);
    }
  }
}
