/** The string that stands for a composite map key: the keyFor functions of compiler/prelude/types.js
    against $equal of compiler/prelude/prelude.js. */
module MapKeys {

  datatype Type = BoolType | IntType | StringType | Int64Type
    | ArrayType(elem: Type, len: nat) | StructType(fields: seq<Type>)

  datatype Value = Bool(b: bool) | Int(i: int) | String(s: string)
    | Int64(high: int, low: int) | Array(a: seq<Value>) | Struct(f: seq<Value>)

  predicate HasType(v: Value, t: Type)
    decreases v
  {
    match t
    case BoolType => v.Bool?
    case IntType => v.Int?
    case StringType => v.String?
    case Int64Type => v.Int64?
    case ArrayType(e, n) => v.Array? && |v.a| == n && forall i | 0 <= i < n :: HasType(v.a[i], e)
    case StructType(fs) => v.Struct? && |v.f| == |fs| && forall i | 0 <= i < |fs| :: HasType(v.f[i], fs[i])
  }

  // ----- $equal -----

  predicate Equal(v: Value, w: Value, t: Type)
    requires HasType(v, t) && HasType(w, t)
    decreases v
  {
    match t
    case Int64Type => v.high == w.high && v.low == w.low
    case ArrayType(e, n) => |v.a| == |w.a| && forall i | 0 <= i < |v.a| :: Equal(v.a[i], w.a[i], e)
    case StructType(fs) => forall i | 0 <= i < |fs| :: Equal(v.f[i], w.f[i], fs[i])
    case _ => v == w
  }

  /** $equal holds of two values of a type exactly when they are the same value. */
  lemma {:induction false} EqualIsSame(v: Value, w: Value, t: Type)
    requires HasType(v, t) && HasType(w, t)
    ensures Equal(v, w, t) <==> v == w
    decreases v
  {
    match t
    case ArrayType(e, n) =>
      forall i | 0 <= i < n ensures Equal(v.a[i], w.a[i], e) <==> v.a[i] == w.a[i] {
        EqualIsSame(v.a[i], w.a[i], e);
      }
      if Equal(v, w, t) { assert v.a == w.a; }
    case StructType(fs) =>
      forall i | 0 <= i < |fs| ensures Equal(v.f[i], w.f[i], fs[i]) <==> v.f[i] == w.f[i] {
        EqualIsSame(v.f[i], w.f[i], fs[i]);
      }
      if Equal(v, w, t) { assert v.f == w.f; }
    case _ =>
  }

  // ----- keyFor -----

  function Digit(d: nat): char
    requires d < 10
  {
    "0123456789"[d]
  }

  function Digits(n: nat): string {
    if n < 10 then [Digit(n)] else Digits(n / 10) + [Digit(n % 10)]
  }

  /** String(i) of a number that is an integer. */
  function Decimal(i: int): string {
    if i < 0 then "-" + Digits(-i) else Digits(i)
  }

  /** str.replace(/c/g, r). */
  function ReplaceAll(str: string, c: char, r: string): string {
    if str == "" then "" else (if str[0] == c then r else [str[0]]) + ReplaceAll(str[1..], c, r)
  }

  function Escape(str: string): string {
    ReplaceAll(ReplaceAll(str, '\\', "\\\\"), '$', "\\$")
  }

  /** parts.join("$"). */
  function Join(parts: seq<string>): string {
    if |parts| == 0 then "" else if |parts| == 1 then parts[0] else parts[0] + "$" + Join(parts[1..])
  }

  function KeyFor(v: Value, t: Type): string
    requires HasType(v, t)
    decreases v
  {
    match t
    case BoolType => if v.b then "true" else "false"
    case IntType => Decimal(v.i)
    case StringType => "$" + v.s
    case Int64Type => Decimal(v.high) + "$" + Decimal(v.low)
    case ArrayType(e, n) => Join(seq(n, i requires 0 <= i < n => Escape(KeyFor(v.a[i], e))))
    case StructType(fs) => Join(seq(|fs|, i requires 0 <= i < |fs| => Escape(KeyFor(v.f[i], fs[i]))))
  }

  // ----- the pieces are injective -----

  predicate Plain(str: string) {
    forall i | 0 <= i < |str| :: str[i] == '-' || '0' <= str[i] <= '9'
  }

  lemma {:induction false} DigitsPlain(n: nat)
    ensures Digits(n) != "" && forall i | 0 <= i < |Digits(n)| :: '0' <= Digits(n)[i] <= '9'
  {
    if n >= 10 { DigitsPlain(n / 10); }
  }

  lemma DigitInjective(m: nat, n: nat)
    requires m < 10 && n < 10 && Digit(m) == Digit(n)
    ensures m == n
  { }

  lemma {:induction false} DigitsInjective(m: nat, n: nat)
    requires Digits(m) == Digits(n)
    ensures m == n
  {
    DigitsPlain(m / 10);
    DigitsPlain(n / 10);
    hide Digit;
    var a, b := Digits(m), Digits(n);
    assert a[|a| - 1] == Digit(m % 10) && b[|b| - 1] == Digit(n % 10);
    DigitInjective(m % 10, n % 10);
    if m >= 10 && n >= 10 {
      assert a[..|a| - 1] == Digits(m / 10) && b[..|b| - 1] == Digits(n / 10);
      DigitsInjective(m / 10, n / 10);
    }
  }

  lemma DecimalInjective(i: int, j: int)
    requires Decimal(i) == Decimal(j)
    ensures i == j
  {
    var a, b := if i < 0 then -i else i, if j < 0 then -j else j;
    DigitsPlain(a);
    DigitsPlain(b);
    assert Decimal(i)[0] == Decimal(j)[0];
    if i < 0 {
      assert Decimal(i)[1..] == Digits(a) && Decimal(j)[1..] == Digits(b);
    }
    DigitsInjective(a, b);
  }

  /** The number that a text of digits stands for. */
  function NumberOf(s: string): int {
    if s == "" then 0 else NumberOf(s[..|s| - 1]) * 10 + (s[|s| - 1] as int - '0' as int)
  }

  lemma DigitIs(d: nat)
    requires d < 10
    ensures Digit(d) as int == '0' as int + d
  { }

  /** The decimal text of a number stands for it, and starts with a zero only when it is "0". */
  lemma {:induction false} DigitsAreDecimal(n: nat)
    ensures NumberOf(Digits(n)) == n && (Digits(n)[0] == '0' ==> Digits(n) == "0")
  {
    hide Digit;
    DigitIs(n % 10);
    if n < 10 {
      assert Digits(n)[..0] == "";
    } else {
      DigitsAreDecimal(n / 10);
      DigitsPlain(n / 10);
      assert Digits(n)[..|Digits(n)| - 1] == Digits(n / 10);
      assert NumberOf("0") == 0 by { assert "0"[..0] == ""; }
    }
  }

  lemma DecimalPlain(i: int)
    ensures Plain(Decimal(i))
  {
    DigitsPlain(if i < 0 then -i else i);
  }

  /** Two texts without '$', separated by one. */
  lemma SplitAtDollar(a: string, b: string, c: string, d: string)
    requires Plain(a) && Plain(c) && a + "$" + b == c + "$" + d
    ensures a == c && b == d
  {
    var s, t := a + "$" + b, c + "$" + d;
    assert s[|a|] == '$' && t[|c|] == '$';
    assert forall k | 0 <= k < |a| :: s[k] == a[k];
    assert forall k | 0 <= k < |c| :: t[k] == c[k];
    assert s[..|a|] == a && t[..|c|] == c;
    assert s[|a| + 1..] == b && t[|c| + 1..] == d;
  }

  // ----- escaping -----

  function EscapeChar(c: char): string {
    if c == '\\' then "\\\\" else if c == '$' then "\\$" else [c]
  }

  lemma {:induction false} ReplaceConcat(a: string, b: string, c: char, r: string)
    ensures ReplaceAll(a + b, c, r) == ReplaceAll(a, c, r) + ReplaceAll(b, c, r)
  {
    if a == "" {
      assert a + b == b;
    } else {
      ReplaceConcat(a[1..], b, c, r);
      var one := if a[0] == c then r else [a[0]];
      assert (a + b)[1..] == a[1..] + b;
      Regroup(one, ReplaceAll(a[1..], c, r), ReplaceAll(b, c, r));
    }
  }

  lemma Regroup(a: string, b: string, c: string)
    ensures a + (b + c) == (a + b) + c
  { }

  /** The two replacements escape character by character. */
  lemma EscapeCons(str: string)
    requires str != ""
    ensures Escape(str) == EscapeChar(str[0]) + Escape(str[1..])
  {
    var first := if str[0] == '\\' then "\\\\" else [str[0]];
    ReplaceConcat(first, ReplaceAll(str[1..], '\\', "\\\\"), '$', "\\$");
    if str[0] == '\\' {
      assert first[1..] == "\\" && first[1..][1..] == "";
      assert ReplaceAll(first[1..], '$', "\\$") == "\\" + ReplaceAll("", '$', "\\$");
      assert ReplaceAll(first, '$', "\\$") == "\\" + ReplaceAll(first[1..], '$', "\\$");
    } else {
      assert first[1..] == "";
      assert ReplaceAll(first, '$', "\\$") == (if str[0] == '$' then "\\$" else first) + ReplaceAll("", '$', "\\$");
    }
  }

  lemma EscapeCharInjective(c: char, s: string, d: char, t: string)
    requires EscapeChar(c) + s == EscapeChar(d) + t
    ensures c == d && s == t
  {
    var p, q := EscapeChar(c), EscapeChar(d);
    assert (p + s)[0] == p[0] && (q + t)[0] == q[0];
    if |p| == 2 { assert (p + s)[1] == p[1]; }
    if |q| == 2 { assert (q + t)[1] == q[1]; }
    assert (p + s)[|p|..] == s && (q + t)[|q|..] == t;
  }

  /** What may follow an escaped text: nothing, or a separator. */
  predicate Rest(str: string) {
    str == "" || str[0] == '$'
  }

  lemma EscapeStart(str: string)
    ensures if str == "" then Escape(str) == "" else Escape(str) != "" && Escape(str)[0] != '$'
  {
    if str != "" { EscapeCons(str); }
  }

  /** Escaped texts end where a '$' follows that is not escaped, and are different for different texts. */
  lemma {:induction false} EscapeInjective(a: string, x: string, b: string, y: string)
    requires Rest(x) && Rest(y) && Escape(a) + x == Escape(b) + y
    ensures a == b && x == y
    decreases |a|
  {
    hide Escape, EscapeChar;
    EscapeStart(a);
    EscapeStart(b);
    if a != "" { assert (Escape(a) + x)[0] == Escape(a)[0]; }
    if b != "" { assert (Escape(b) + y)[0] == Escape(b)[0]; }
    if a == "" || b == "" {
      assert "" + x == x && "" + y == y;
    } else {
      EscapeCons(a);
      EscapeCons(b);
      assert EscapeChar(a[0]) + (Escape(a[1..]) + x) == Escape(a) + x;
      assert EscapeChar(b[0]) + (Escape(b[1..]) + y) == Escape(b) + y;
      EscapeCharInjective(a[0], Escape(a[1..]) + x, b[0], Escape(b[1..]) + y);
      EscapeInjective(a[1..], x, b[1..], y);
      assert a == [a[0]] + a[1..] && b == [b[0]] + b[1..];
    }
  }

  /** Joined escaped texts, as many on both sides, are equal only when the texts are. */
  lemma {:induction false} JoinInjective(escA: seq<string>, escB: seq<string>, a: seq<string>, b: seq<string>)
    requires |a| == |b| == |escA| == |escB|
    requires forall i | 0 <= i < |a| :: escA[i] == Escape(a[i]) && escB[i] == Escape(b[i])
    requires Join(escA) == Join(escB)
    ensures a == b
    decreases |a|
  {
    if |a| == 0 {
    } else if |a| == 1 {
      assert Escape(a[0]) + "" == Escape(b[0]) + "";
      EscapeInjective(a[0], "", b[0], "");
    } else {
      var x, y := "$" + Join(escA[1..]), "$" + Join(escB[1..]);
      assert Join(escA) == Escape(a[0]) + x && Join(escB) == Escape(b[0]) + y;
      EscapeInjective(a[0], x, b[0], y);
      assert x[1..] == Join(escA[1..]) && y[1..] == Join(escB[1..]);
      JoinInjective(escA[1..], escB[1..], a[1..], b[1..]);
      assert a == [a[0]] + a[1..] && b == [b[0]] + b[1..];
    }
  }

  // ----- keys agree with equality -----

  /** Two values of a type have the same key exactly when they are equal, which is when they are the same. */
  lemma KeyIdentifies(v: Value, w: Value, t: Type)
    requires HasType(v, t) && HasType(w, t)
    ensures KeyFor(v, t) == KeyFor(w, t) <==> v == w
  {
    KeyAgreesWithEqual(v, w, t);
    EqualIsSame(v, w, t);
  }

  lemma {:induction false} KeyAgreesWithEqual(v: Value, w: Value, t: Type)
    requires HasType(v, t) && HasType(w, t)
    ensures KeyFor(v, t) == KeyFor(w, t) <==> Equal(v, w, t)
    decreases v
  {
    match t
    case BoolType =>
      assert "true"[0] != "false"[0];
    case IntType =>
      if KeyFor(v, t) == KeyFor(w, t) { DecimalInjective(v.i, w.i); }
    case StringType =>
      assert KeyFor(v, t)[1..] == v.s && KeyFor(w, t)[1..] == w.s;
    case Int64Type =>
      if KeyFor(v, t) == KeyFor(w, t) {
        DecimalPlain(v.high);
        DecimalPlain(w.high);
        SplitAtDollar(Decimal(v.high), Decimal(v.low), Decimal(w.high), Decimal(w.low));
        DecimalInjective(v.high, w.high);
        DecimalInjective(v.low, w.low);
      }
    case ArrayType(e, n) =>
      var a := seq(n, i requires 0 <= i < n => KeyFor(v.a[i], e));
      var b := seq(n, i requires 0 <= i < n => KeyFor(w.a[i], e));
      forall i | 0 <= i < n ensures a[i] == b[i] <==> Equal(v.a[i], w.a[i], e) {
        KeyAgreesWithEqual(v.a[i], w.a[i], e);
      }
      var ea := seq(n, i requires 0 <= i < n => Escape(KeyFor(v.a[i], e)));
      var eb := seq(n, i requires 0 <= i < n => Escape(KeyFor(w.a[i], e)));
      if Join(ea) == Join(eb) { JoinInjective(ea, eb, a, b); }
      if Equal(v, w, t) { assert ea == eb; }
    case StructType(fs) =>
      var n := |fs|;
      var a := seq(n, i requires 0 <= i < n => KeyFor(v.f[i], fs[i]));
      var b := seq(n, i requires 0 <= i < n => KeyFor(w.f[i], fs[i]));
      forall i | 0 <= i < n ensures a[i] == b[i] <==> Equal(v.f[i], w.f[i], fs[i]) {
        KeyAgreesWithEqual(v.f[i], w.f[i], fs[i]);
      }
      var ea := seq(n, i requires 0 <= i < n => Escape(KeyFor(v.f[i], fs[i])));
      var eb := seq(n, i requires 0 <= i < n => Escape(KeyFor(w.f[i], fs[i])));
      if Join(ea) == Join(eb) { JoinInjective(ea, eb, a, b); }
      if Equal(v, w, t) { assert ea == eb; }
  }
}
