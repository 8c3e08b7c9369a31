/** $mul64 of compiler/prelude/numeric.js: multiplication of 64-bit integers by halves of words. */
module Mul64 {
  import opened JsNumber
  import opened Int64

  /** `z >>> 16`, which is exact only below 2^32. */
  function High16(z: int): (r: Exact)
    requires 0 <= z < TWO32
    ensures r == z / 65536
  {
    Ushr16(z);
    Ushr(z, 16)
  }

  /** `z & 0xFFFF`, of a number below 2^53. */
  function Low16(z: Exact): (r: Exact)
    requires z >= 0
    ensures r == z % 65536
  {
    hide BitAnd, And;
    And16(z);
    LowOfLow(z);
    And(z, 0xFFFF)
  }

  lemma LowOfLow(z: int)
    ensures z % TWO32 % 65536 == z % 65536
  {
    DivMod(z, TWO32);
    DivMod(z % TWO32, 65536);
    DivUnique(z, 65536, 65536 * (z / TWO32) + z % TWO32 / 65536, z % TWO32 % 65536);
  }

  lemma HalvesOf(x: Long)
    requires IsLong(x)
    ensures Halves(x, Ushr(x.high, 16), And(x.high, 0xFFFF), Ushr(x.low, 16), And(x.low, 0xFFFF))
  {
    hide And, Ushr, ToInt32;
    And16(x.high);
    And16(x.low);
    Ushr16(x.high);
    Ushr16(x.low);
    DivMod(ToUint32(x.high), 65536);
    DivMod(x.low, 65536);
  }

  /** The halves of a 64-bit integer, from the top. */
  predicate Halves(x: Long, x48: int, x32: int, x16: int, x00: int) {
    && 0 <= x48 < 65536 && 0 <= x32 < 65536 && 0 <= x16 < 65536 && 0 <= x00 < 65536
    && ToUint32(x.high) == x48 * 65536 + x32 && x.low == x16 * 65536 + x00
  }

  /** The columns of the product that are not lost. */
  function Columns(x48: int, x32: int, x16: int, x00: int, y48: int, y32: int, y16: int, y00: int): int {
    x00 * y00 + 65536 * (x16 * y00 + x00 * y16)
    + TWO32 * (x32 * y00 + x16 * y16 + x00 * y32)
    + TWO32 * 65536 * (x48 * y00 + x32 * y16 + x16 * y32 + x00 * y48)
  }

  lemma ColumnsCorrect(x: Long, y: Long, x48: int, x32: int, x16: int, x00: int, y48: int, y32: int, y16: int, y00: int)
    requires IsLong(x) && IsLong(y) && Halves(x, x48, x32, x16, x00) && Halves(y, y48, y32, y16, y00)
    ensures Columns(x48, x32, x16, x00, y48, y32, y16, y00) % TWO64 == (Value(x) * Value(y)) % TWO64
  {
    var u := x48 * 65536 * TWO32 + x32 * TWO32 + x16 * 65536 + x00;
    var v := y48 * 65536 * TWO32 + y32 * TWO32 + y16 * 65536 + y00;
    var j := if x.high < 0 then -1 else 0;
    var k := if y.high < 0 then -1 else 0;
    assert Value(x) == u + TWO64 * j && Value(y) == v + TWO64 * k;
    UnsignedColumns(u, v, x48, x32, x16, x00, y48, y32, y16, y00);
    hide Columns;
    ModOfProduct(Value(x), Value(y), u, v, j, k);
  }

  lemma UnsignedColumns(u: int, v: int, x48: int, x32: int, x16: int, x00: int, y48: int, y32: int, y16: int, y00: int)
    requires u == x48 * 65536 * TWO32 + x32 * TWO32 + x16 * 65536 + x00
    requires v == y48 * 65536 * TWO32 + y32 * TWO32 + y16 * 65536 + y00
    ensures Columns(x48, x32, x16, x00, y48, y32, y16, y00) % TWO64 == (u * v) % TWO64
  {
    hide Columns;
    Expand(x48, x32, x16, x00, y48, y32, y16, y00);
    SameMod(u * v, Columns(x48, x32, x16, x00, y48, y32, y16, y00),
            x48 * y16 + x32 * y32 + x16 * y48 + 65536 * (x48 * y32 + x32 * y48) + TWO32 * (x48 * y48));
  }

  lemma ModOfProduct(a: int, b: int, u: int, v: int, j: int, k: int)
    requires a == u + TWO64 * j && b == v + TWO64 * k
    ensures (a * b) % TWO64 == (u * v) % TWO64
  {
    Distribute(u, TWO64 * j, v, TWO64 * k);
    assert TWO64 * j * v == TWO64 * (j * v) && u * (TWO64 * k) == TWO64 * (u * k)
        && TWO64 * j * (TWO64 * k) == TWO64 * (TWO64 * (j * k));
    SameMod(a * b, u * v, j * v + u * k + TWO64 * (j * k));
  }

  lemma Distribute(a: int, b: int, c: int, d: int)
    ensures (a + b) * (c + d) == a * c + b * c + a * d + b * d
  { }

  lemma Expand(x48: int, x32: int, x16: int, x00: int, y48: int, y32: int, y16: int, y00: int)
    ensures (x48 * 65536 * TWO32 + x32 * TWO32 + x16 * 65536 + x00)
            * (y48 * 65536 * TWO32 + y32 * TWO32 + y16 * 65536 + y00)
         == Columns(x48, x32, x16, x00, y48, y32, y16, y00)
            + TWO64 * (x48 * y16 + x32 * y32 + x16 * y48 + 65536 * (x48 * y32 + x32 * y48) + TWO32 * (x48 * y48))
  { }

  lemma WrapOfMod(signed: bool, a: int, b: int, c: int)
    requires a == b % TWO64 && b % TWO64 == c % TWO64
    ensures Wrap(signed, a) == Wrap(signed, c)
  { }

  method Mul64(x: Long, y: Long) returns (r: Long)
    requires IsLong(x) && IsLong(y) && x.signed == y.signed
    ensures IsLong(r) && r.signed == x.signed
    ensures Value(r) == Wrap(x.signed, Value(x) * Value(y))
  {
    hide Or, And, Ushr, Shl, ToInt32, ToUint32, Columns, New;
    HalvesOf(x);
    HalvesOf(y);
    var x48: Exact := Ushr(x.high, 16);
    var x32: Exact := And(x.high, 0xFFFF);
    var x16: Exact := Ushr(x.low, 16);
    var x00: Exact := And(x.low, 0xFFFF);

    var y48: Exact := Ushr(y.high, 16);
    var y32: Exact := And(y.high, 0xFFFF);
    var y16: Exact := Ushr(y.low, 16);
    var y00: Exact := And(y.low, 0xFFFF);

    var z48, z32, z16, z00 := Accumulate(x48, x32, x16, x00, y48, y32, y16, y00);
    Join16(z48, z32);
    Join16(z16, z00);
    var hi: Exact := Ushr(Or(Shl(z48, 16), z32), 0);
    var lo: Exact := Ushr(Or(Shl(z16, 16), z00), 0);

    r := New(x.signed, hi, lo);
    ColumnsCorrect(x, y, x48, x32, x16, x00, y48, y32, y16, y00);
    NewValue(x.signed, hi, lo);
    WrapOfMod(x.signed, hi * TWO32 + lo, Columns(x48, x32, x16, x00, y48, y32, y16, y00), Value(x) * Value(y));
  }

  lemma TopColumn(c: int, sum: int, z48: int, z32: int, z16: int, z00: int)
    requires c == sum * 65536 * TWO32 + z32 * TWO32 + z16 * 65536 + z00 && z48 == sum % 65536
    requires 0 <= z32 < 65536 && 0 <= z16 < 65536 && 0 <= z00 < 65536
    ensures z48 * 65536 * TWO32 + z32 * TWO32 + z16 * 65536 + z00 == c % TWO64
  {
    SameMod(c, z48 * 65536 * TWO32 + z32 * TWO32 + z16 * 65536 + z00, sum / 65536);
  }

  /** The accumulation, in which no operand of `>>>` reaches 2^32 and no sum 2^53. */
  method Accumulate(x48: Exact, x32: Exact, x16: Exact, x00: Exact, y48: Exact, y32: Exact, y16: Exact, y00: Exact)
    returns (z48: Exact, z32: Exact, z16: Exact, z00: Exact)
    requires 0 <= x48 < 65536 && 0 <= x32 < 65536 && 0 <= x16 < 65536 && 0 <= x00 < 65536
    requires 0 <= y48 < 65536 && 0 <= y32 < 65536 && 0 <= y16 < 65536 && 0 <= y00 < 65536
    ensures 0 <= z48 < 65536 && 0 <= z32 < 65536 && 0 <= z16 < 65536 && 0 <= z00 < 65536
    ensures z48 * 65536 * TWO32 + z32 * TWO32 + z16 * 65536 + z00
            == Columns(x48, x32, x16, x00, y48, y32, y16, y00) % TWO64
  {
    Product(x00, y00); Product(x16, y00); Product(x00, y16); Product(x32, y00); Product(x16, y16); Product(x00, y32);
    Product(x48, y00); Product(x32, y16); Product(x16, y32); Product(x00, y48);
    z48, z32, z16, z00 := 0, 0, 0, 0;
    z00 := z00 + x00 * y00;
    z16 := z16 + High16(z00);
    z00 := Low16(z00);
    z16 := z16 + x16 * y00;
    z32 := z32 + High16(z16);
    z16 := Low16(z16);
    z16 := z16 + x00 * y16;
    z32 := z32 + High16(z16);
    z16 := Low16(z16);
    assert z32 * TWO32 + z16 * 65536 + z00 == x00 * y00 + 65536 * (x16 * y00 + x00 * y16);
    z32 := z32 + x32 * y00;
    z48 := z48 + High16(z32);
    z32 := Low16(z32);
    z32 := z32 + x16 * y16;
    z48 := z48 + High16(z32);
    z32 := Low16(z32);
    z32 := z32 + x00 * y32;
    z48 := z48 + High16(z32);
    z32 := Low16(z32);
    z48 := z48 + (x48 * y00 + x32 * y16 + x16 * y32 + x00 * y48);
    ghost var sum := z48;
    assert sum * 65536 * TWO32 + z32 * TWO32 + z16 * 65536 + z00 == Columns(x48, x32, x16, x00, y48, y32, y16, y00);
    hide Columns;
    z48 := Low16(z48);
    TopColumn(Columns(x48, x32, x16, x00, y48, y32, y16, y00), sum, z48, z32, z16, z00);
  }
}
