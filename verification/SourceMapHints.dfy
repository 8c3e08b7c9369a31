/** Source-map hints in the stream of generated code: internal/sourcemapx/hint.go and filter.go. */
module SourceMapHints {

  type Byte = x: int | 0 <= x < 256

  datatype Option<T> = None | Some(value: T)

  const MAGIC: Byte := 8
  const NEWLINE: Byte := 10

  /** No magic byte. */
  predicate Clean(b: seq<Byte>) {
    forall k | 0 <= k < |b| :: b[k] != MAGIC
  }

  datatype Hint = Hint(payload: seq<Byte>)

  // ----- hint.go -----

  /** Hint.WriteTo: magic, size in two bytes with the higher one first, payload; None where it panics. */
  function WriteTo(h: Hint): Option<seq<Byte>> {
    if |h.payload| > 0xFFFF then None
    else Some([MAGIC, |h.payload| / 256, |h.payload| % 256] + h.payload)
  }

  /** FindHint: the lowest index of a magic byte, or -1. */
  method FindHint(b: seq<Byte>) returns (i: int)
    ensures i == -1 <==> Clean(b)
    ensures i != -1 ==> 0 <= i < |b| && b[i] == MAGIC && Clean(b[..i])
  {
    i := 0;
    while i < |b|
      invariant 0 <= i <= |b| && Clean(b[..i])
    {
      if b[i] == MAGIC { return; }
      i := i + 1;
    }
    assert b[..i] == b;
    return -1;
  }

  /** ReadHint: the hint and its length; None where it panics. */
  function ReadHint(b: seq<Byte>): (r: Option<(Hint, nat)>)
    ensures r.Some? <==> |b| >= 3 && b[0] == 8 && |b| >= (b[1] as int) * 256 + b[2] + 3
    ensures r.Some? ==> 3 <= r.value.1 <= |b| && r.value.0.payload == b[3..r.value.1]
                        && r.value.1 == (b[1] as int) * 256 + b[2] + 3
  {
    if |b| < 3 || b[0] != MAGIC then None
    else
      var size: int := (b[1] as int) * 256 + b[2];
      if |b| < size + 3 then None else Some((Hint(b[3..size + 3]), size + 3))
  }

  /** Reading gives back what was written, whatever follows. */
  lemma ReadWritten(h: Hint, rest: seq<Byte>)
    requires |h.payload| <= 0xFFFF
    ensures ReadHint(WriteTo(h).value + rest) == Some((h, |WriteTo(h).value|))
    ensures var w := WriteTo(h).value;
            |w| == |h.payload| + 3 && w[0] == 8 && (w[1] as int) * 256 + w[2] == |h.payload| && w[3..] == h.payload
  {
    var b := WriteTo(h).value + rest;
    assert b[0] == MAGIC && b[1] == |h.payload| / 256 && b[2] == |h.payload| % 256;
    assert b[3..|h.payload| + 3] == h.payload;
  }

  // ----- the stream -----

  /** What the printer writes: pieces of text without the magic byte, and hints. */
  datatype Item = Text(t: seq<Byte>) | Mark(h: Hint)

  predicate Printable(items: seq<Item>) {
    forall i | 0 <= i < |items| :: if items[i].Text? then Clean(items[i].t) else |items[i].h.payload| <= 0xFFFF
  }

  function Encoded(items: seq<Item>): seq<Byte>
    requires Printable(items)
  {
    if items == [] then []
    else (if items[0].Text? then items[0].t else WriteTo(items[0].h).value) + Encoded(items[1..])
  }

  function TextOf(items: seq<Item>): seq<Byte> {
    if items == [] then [] else (if items[0].Text? then items[0].t else []) + TextOf(items[1..])
  }

  // ----- positions in the output -----

  /** Complete lines of a text. */
  function Lines(out: seq<Byte>): nat {
    if out == [] then 0 else (if out[|out| - 1] == NEWLINE then 1 else 0) + Lines(out[..|out| - 1])
  }

  /** Bytes after the last newline. */
  function Column(out: seq<Byte>): nat {
    if out == [] || out[|out| - 1] == NEWLINE then 0 else 1 + Column(out[..|out| - 1])
  }

  /** The newlines in the output, and the bytes behind the last of them. */
  lemma {:induction false} PositionIs(out: seq<Byte>)
    ensures Lines(out) == multiset(out)[10]
    ensures Column(out) <= |out| && forall k | |out| - Column(out) <= k < |out| :: out[k] != 10
    ensures Column(out) < |out| ==> out[|out| - Column(out) - 1] == 10
  {
    if out != [] {
      var front := out[..|out| - 1];
      PositionIs(front);
      assert out == front + [out[|out| - 1]];
    }
  }

  datatype Mapping = Mapping(line: nat, column: nat, h: Hint)

  /** The mappings that belong to the items when `out` is already written: each hint at the place where
      the text before it ends, lines counted from one. */
  function Mappings(out: seq<Byte>, items: seq<Item>): seq<Mapping>
    decreases |items|
  {
    if items == [] then []
    else if items[0].Text? then Mappings(out + items[0].t, items[1..])
    else [Mapping(Lines(out) + 1, Column(out), items[0].h)] + Mappings(out, items[1..])
  }

  lemma {:induction false} PlainText(out: seq<Byte>, w: seq<Byte>)
    requires NEWLINE !in w
    ensures Lines(out + w) == Lines(out) && Column(out + w) == Column(out) + |w|
    decreases |w|
  {
    if w == [] {
      assert out + w == out;
    } else {
      var v := w[..|w| - 1];
      PlainText(out, v);
      assert (out + w)[..|out + w| - 1] == out + v;
      assert w[|w| - 1] in w;
    }
  }

  lemma LineEnd(out: seq<Byte>, w: seq<Byte>)
    requires NEWLINE !in w
    ensures Lines(out + w + [NEWLINE]) == Lines(out) + 1 && Column(out + w + [NEWLINE]) == 0
  {
    PlainText(out, w);
    var t := out + w + [NEWLINE];
    assert t[..|t| - 1] == out + w;
  }

  // ----- what Write does with a stretch of bytes -----

  datatype Outcome = Outcome(out: seq<Byte>, mappings: seq<Mapping>, ok: bool)

  /** The bytes up to the first magic byte are output, the hint there is taken out, and so on; not ok
      where ReadHint panics. */
  function Filtered(out: seq<Byte>, p: seq<Byte>): (o: Outcome)
    decreases |p|
  {
    if Clean(p) then Outcome(out + p, [], true)
    else
      var i := FirstMagic(p);
      var w := out + p[..i];
      var r := ReadHint(p[i..]);
      if r.None? then Outcome(w, [], false)
      else
        var o := Filtered(w, p[i + r.value.1..]);
        Outcome(o.out, [Mapping(Lines(w) + 1, Column(w), r.value.0)] + o.mappings, o.ok)
  }

  function Prepended(ms: seq<Mapping>, o: Outcome): Outcome {
    Outcome(o.out, ms + o.mappings, o.ok)
  }

  function FirstMagic(p: seq<Byte>): (i: nat)
    requires !Clean(p)
    ensures i < |p| && p[i] == MAGIC && Clean(p[..i])
  {
    if p[0] == MAGIC then 0
    else
      var i := FirstMagic(p[1..]) + 1;
      assert p[..i] == [p[0]] + p[1..][..i - 1];
      i
  }

  lemma FirstMagicIs(p: seq<Byte>, i: nat)
    requires i < |p| && p[i] == MAGIC && Clean(p[..i])
    ensures !Clean(p) && FirstMagic(p) == i
  {
    var j := FirstMagic(p);
    assert forall k | 0 <= k < i :: p[..i][k] == p[k];
    assert forall k | 0 <= k < j :: p[..j][k] == p[k];
  }

  /** One round of the filter, with the magic byte at i. */
  lemma FilteredStep(out: seq<Byte>, p: seq<Byte>, i: nat)
    requires i < |p| && p[i] == MAGIC && Clean(p[..i])
    ensures var w := out + p[..i];
            Filtered(out, p) ==
              var r := ReadHint(p[i..]);
              if r.None? then Outcome(w, [], false)
              else Prepended([Mapping(Lines(w) + 1, Column(w), r.value.0)], Filtered(w, p[i + r.value.1..]))
  {
    hide Lines, Column, ReadHint, FirstMagic, Clean;
    FirstMagicIs(p, i);
  }

  lemma Assoc<T>(a: seq<T>, b: seq<T>, c: seq<T>)
    ensures a + b + c == a + (b + c)
  { }

  /** Text in front only moves the rest. */
  lemma FilteredText(out: seq<Byte>, t: seq<Byte>, p: seq<Byte>)
    requires Clean(t)
    ensures Filtered(out, t + p) == Filtered(out + t, p)
  {
    hide Filtered, Lines, Column, ReadHint, FirstMagic, Clean;
    CleanConcat(t, p);
    if !Clean(p) {
      var i := FirstMagic(p);
      var q := t + p;
      CleanConcat(t, p[..i]);
      assert q[..|t| + i] == t + p[..i] && q[|t| + i..] == p[i..] && q[|t| + i] == MAGIC;
      Assoc(out, t, p[..i]);
      FilteredStep(out, q, |t| + i);
      FilteredStep(out + t, p, i);
      var r := ReadHint(p[i..]);
      if r.Some? { assert q[|t| + i + r.value.1..] == p[i + r.value.1..]; }
    } else {
      Assoc(out, t, p);
      NoMagic(out, t + p);
      NoMagic(out + t, p);
    }
  }

  lemma CleanConcat(a: seq<Byte>, b: seq<Byte>)
    ensures Clean(a + b) <==> Clean(a) && Clean(b)
  {
    if Clean(a + b) {
      forall k | 0 <= k < |a| ensures a[k] != MAGIC { assert (a + b)[k] == a[k]; }
      forall k | 0 <= k < |b| ensures b[k] != MAGIC { assert (a + b)[|a| + k] == b[k]; }
    }
  }

  lemma NoMagic(out: seq<Byte>, p: seq<Byte>)
    requires Clean(p)
    ensures Filtered(out, p) == Outcome(out + p, [], true)
  { }

  /** What the printer wrote, and then whatever follows. */
  lemma {:induction false} FilteredFront(out: seq<Byte>, items: seq<Item>, tail: seq<Byte>)
    requires Printable(items)
    ensures Filtered(out, Encoded(items) + tail) == Prepended(Mappings(out, items), Filtered(out + TextOf(items), tail))
    decreases |items|
  {
    if items == [] {
      assert out + [] == out && [] + tail == tail;
      NothingPrepended(Filtered(out, tail));
    } else if items[0].Text? {
      var t, rest := items[0].t, items[1..];
      Assoc(t, Encoded(rest), tail);
      FilteredText(out, t, Encoded(rest) + tail);
      FilteredFront(out + t, rest, tail);
      assert (out + t) + TextOf(rest) == out + (t + TextOf(rest));
    } else {
      var h, rest := items[0].h, items[1..];
      var w := WriteTo(h).value;
      var p := w + (Encoded(rest) + tail);
      Assoc(w, Encoded(rest), tail);
      ReadWritten(h, Encoded(rest) + tail);
      assert p[0] == MAGIC;
      hide Lines, Column, ReadHint, WriteTo, Filtered;
      FilteredStep(out, p, 0);
      assert p[0..] == p && p[|w|..] == Encoded(rest) + tail && out + p[..0] == out;
      FilteredFront(out, rest, tail);
      assert [] + TextOf(rest) == TextOf(rest);
      Assoc([Mapping(Lines(out) + 1, Column(out), h)], Mappings(out, rest),
            Filtered(out + TextOf(rest), tail).mappings);
    }
  }

  lemma NothingPrepended(o: Outcome)
    ensures Prepended([], o) == o
  { }

  /** Filtering what the printer wrote gives exactly its text, and exactly its hints, in order, at their
      places in the output. */
  lemma FilteredEncoded(out: seq<Byte>, items: seq<Item>)
    requires Printable(items)
    ensures Filtered(out, Encoded(items)) == Outcome(out + TextOf(items), Mappings(out, items), true)
  {
    FilteredFront(out, items, []);
    assert Encoded(items) + [] == Encoded(items) && (out + TextOf(items)) + [] == out + TextOf(items);
    NoMagic(out + TextOf(items), []);
  }

  /** A magic byte that starts no hint: the header or the payload is cut off. */
  predicate Malformed(tail: seq<Byte>) {
    tail != [] && tail[0] == 8 && (|tail| < 3 || |tail| < (tail[1] as int) * 256 + tail[2] + 3)
  }

  /** Any stretch of bytes is what a printer wrote, or that and then a hint that is cut off. */
  lemma {:induction false} Parsed(p: seq<Byte>) returns (items: seq<Item>, tail: seq<Byte>)
    ensures Printable(items) && p == Encoded(items) + tail && (tail == [] || Malformed(tail))
    decreases |p|
  {
    if p == [] || Malformed(p) {
      return [], p;
    } else if p[0] != MAGIC {
      var rest;
      rest, tail := Parsed(p[1..]);
      items := [Text([p[0]])] + rest;
      assert p == [p[0]] + p[1..] && items[1..] == rest;
      Assoc([p[0]], Encoded(rest), tail);
    } else {
      var size := (p[1] as int) * 256 + p[2];
      var h, rest := Hint(p[3..size + 3]), [];
      rest, tail := Parsed(p[size + 3..]);
      items := [Mark(h)] + rest;
      assert WriteTo(h).value == p[..size + 3] && items[1..] == rest;
      assert p == p[..size + 3] + p[size + 3..];
      Assoc(WriteTo(h).value, Encoded(rest), tail);
    }
  }

  /** On every input: the text and the hints before a hint that is cut off come out as they should, and the program
      panics exactly when there is one. */
  lemma FilteredAny(out: seq<Byte>, p: seq<Byte>) returns (items: seq<Item>, tail: seq<Byte>)
    ensures Printable(items) && p == Encoded(items) + tail && (tail == [] || Malformed(tail))
    ensures Filtered(out, p) == Outcome(out + TextOf(items), Mappings(out, items), tail == [])
  {
    items, tail := Parsed(p);
    FilteredFront(out, items, tail);
    var w := out + TextOf(items);
    assert w + [] == w && w + tail[..0] == w && tail[0..] == tail;
    if tail == [] { NoMagic(w, tail); } else { FilteredStep(w, tail, 0); }
    assert Mappings(out, items) + [] == Mappings(out, items);
  }

  /** Items written one after the other: their places do not depend on where the stream is cut. */
  lemma {:induction false} MappingsConcat(out: seq<Byte>, a: seq<Item>, b: seq<Item>)
    ensures Mappings(out, a + b) == Mappings(out, a) + Mappings(out + TextOf(a), b)
    ensures TextOf(a + b) == TextOf(a) + TextOf(b)
    decreases |a|
  {
    if a == [] {
      assert a + b == b && out + [] == out;
    } else {
      assert (a + b)[1..] == a[1..] + b;
      if a[0].Text? {
        MappingsConcat(out + a[0].t, a[1..], b);
        assert (out + a[0].t) + TextOf(a[1..]) == out + (a[0].t + TextOf(a[1..]));
      } else {
        MappingsConcat(out, a[1..], b);
        assert [] + TextOf(a[1..]) == TextOf(a[1..]);
      }
    }
  }

  /** A hint is reported for the line and column at which the text before it ends, lines counted from one and columns
      from zero. */
  lemma HintIsMapped(out: seq<Byte>, a: seq<Item>, h: Hint, b: seq<Item>)
    ensures |Mappings(out, a)| < |Mappings(out, a + ([Mark(h)] + b))|
    ensures var at, m := out + TextOf(a), Mappings(out, a + ([Mark(h)] + b))[|Mappings(out, a)|];
            && m.h == h && m.line == multiset(at)[10] + 1
            && m.column <= |at| && (forall k | |at| - m.column <= k < |at| :: at[k] != 10)
            && (m.column < |at| ==> at[|at| - m.column - 1] == 10)
  {
    PositionIs(out + TextOf(a));
    MappingsConcat(out, a, [Mark(h)] + b);
    assert ([Mark(h)] + b)[1..] == b;
  }

  // ----- filter.go -----

  class Filter {
    const mapping: bool
    var out: seq<Byte>
    var mappings: seq<Mapping>
    var line: nat
    var column: nat

    /** The counters are the position at the end of the output. */
    ghost predicate Valid()
      reads this
    {
      line == Lines(out) && column == Column(out)
    }

    constructor (mapping: bool)
      ensures Valid() && out == [] && mappings == [] && this.mapping == mapping
    {
      this.mapping, out, mappings, line, column := mapping, [], [], 0, 0;
    }

    /** The writer takes the bytes, and the inner loop counts lines and columns. */
    method Output(w: seq<Byte>)
      requires Valid()
      modifies this`out, this`line, this`column
      ensures Valid() && out == old(out) + w
    {
      out := out + w;
      var rest := w;
      ghost var done := old(out);
      while true
        invariant out == old(out) + w && done + rest == out && line == Lines(done) && column == Column(done)
        decreases |rest|
      {
        var i := IndexNewline(rest);
        if i == -1 {
          PlainText(done, rest);
          column := column + |rest|;
          break;
        }
        LineEnd(done, rest[..i]);
        assert rest == rest[..i] + [NEWLINE] + rest[i + 1..];
        assert done + rest == (done + rest[..i] + [NEWLINE]) + rest[i + 1..];
        done := done + rest[..i] + [NEWLINE];
        line := line + 1;
        column := 0;
        rest := rest[i + 1..];
      }
    }

    /** Write, with a writer that does not fail: the length of the input, or not ok where the program
        panics. */
    method Write(input: seq<Byte>) returns (n: nat, ok: bool)
      requires Valid()
      modifies this
      ensures var o := Filtered(old(out), input);
              && ok == o.ok && Valid() && out == o.out
              && mappings == old(mappings) + (if mapping then o.mappings else [])
      ensures ok ==> n == |input|
    {
      hide Filtered, Lines, Column, ReadHint, FirstMagic, Clean;
      n := 0;
      var p := input;
      ghost var before := out;
      ghost var taken: seq<Mapping> := [];
      while true
        invariant Valid() && n + |p| == |input|
        invariant mappings == old(mappings) + (if mapping then taken else [])
        invariant Filtered(before, input) == Prepended(taken, Filtered(out, p))
        decreases |p|
      {
        var i := FindHint(p);
        var w := if i != -1 then p[..i] else p;
        ghost var at := out;
        Output(w);
        n := n + |w|;
        if i == -1 {
          NoMagic(at, p);
          return n, true;
        }
        FilteredStep(at, p, i);
        var r := ReadHint(p[i..]);
        if r.None? { return n, false; }
        var (h, length) := r.value;
        assert p[i..][length..] == p[i + length..];
        if mapping { mappings := mappings + [Mapping(line + 1, column, h)]; }
        Assoc(taken, [Mapping(line + 1, column, h)], Filtered(out, p[i + length..]).mappings);
        taken := taken + [Mapping(line + 1, column, h)];
        p := p[i + length..];
        n := n + length;
      }
    }
  }

  method IndexNewline(b: seq<Byte>) returns (i: int)
    ensures i == -1 <==> NEWLINE !in b
    ensures i != -1 ==> 0 <= i < |b| && b[i] == NEWLINE && NEWLINE !in b[..i]
  {
    i := 0;
    while i < |b|
      invariant 0 <= i <= |b| && NEWLINE !in b[..i]
    {
      if b[i] == NEWLINE { return; }
      i := i + 1;
    }
    assert b[..i] == b;
    return -1;
  }

  // ----- several writes -----

  function Flat(writes: seq<seq<Item>>): seq<Item> {
    if writes == [] then [] else writes[0] + Flat(writes[1..])
  }

  /** The filter over several writes. */
  function FilteredAll(out: seq<Byte>, writes: seq<seq<Item>>): Outcome
    requires forall i | 0 <= i < |writes| :: Printable(writes[i])
    decreases |writes|
  {
    if writes == [] then Outcome(out, [], true)
    else
      var o := Filtered(out, Encoded(writes[0]));
      if !o.ok then o else Prepended(o.mappings, FilteredAll(o.out, writes[1..]))
  }

  /** A printer and a filter together, in any number of writes that do not cut a hint in two: the text
      comes out and each hint is reported once, where it belongs, as if all had been one write. */
  lemma {:induction false} WritesTogether(out: seq<Byte>, writes: seq<seq<Item>>)
    requires forall i | 0 <= i < |writes| :: Printable(writes[i])
    ensures FilteredAll(out, writes) == Outcome(out + TextOf(Flat(writes)), Mappings(out, Flat(writes)), true)
    decreases |writes|
  {
    hide Filtered, Encoded, Printable, TextOf, Mappings;
    if writes == [] {
      NoItems(out);
    } else {
      FilteredEncoded(out, writes[0]);
      WritesTogether(out + TextOf(writes[0]), writes[1..]);
      MappingsConcat(out, writes[0], Flat(writes[1..]));
      Assoc(out, TextOf(writes[0]), TextOf(Flat(writes[1..])));
    }
  }

  lemma NoItems(out: seq<Byte>)
    ensures out + TextOf([]) == out && Mappings(out, []) == []
  { }
}
