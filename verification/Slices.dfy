/** Slices that share a backing array: $subslice, $copyArray, $growSlice, $internalAppend and $copySlice
    of compiler/prelude/prelude.js.  Elements are numbers, and for $copyArray also structs and arrays. */
module Slices {

  /** A window of `length` elements of the array, which may grow to `capacity`. */
  datatype Slice = Slice(a: array<int>, offset: nat, length: nat, capacity: nat, isNil: bool)

  datatype Result = Ok(s: Slice) | OutOfRange

  predicate Fits(s: Slice) {
    s.length <= s.capacity && s.offset + s.capacity <= s.a.Length
  }

  function View(s: Slice): seq<int>
    requires Fits(s)
    reads s.a
  {
    s.a[..][s.offset..s.offset + s.length]
  }

  /** An array's contents with the cells from `at` on overwritten by others. */
  function Overwritten(was: seq<int>, at: nat, cells: seq<int>): (r: seq<int>)
    requires at + |cells| <= |was|
    ensures |r| == |was|
  {
    was[..at] + cells + was[at + |cells|..]
  }

  lemma OverwrittenIs(was: seq<int>, at: nat, cells: seq<int>, now: seq<int>)
    requires at + |cells| <= |was| == |now|
    requires forall k | 0 <= k < |was| :: now[k] == if at <= k < at + |cells| then cells[k - at] else was[k]
    ensures now == Overwritten(was, at, cells)
  { }

  /** $copyArray: the cells get what the source cells held before, also when the two overlap.  An array
      with `subarray` is copied by `set`, which reads everything first. */
  method CopyArray(dst: array<int>, src: array<int>, dstOffset: nat, srcOffset: nat, n: nat, typed: bool)
    requires dstOffset + n <= dst.Length && srcOffset + n <= src.Length
    modifies dst
    ensures dst[..] == Overwritten(old(dst[..]), dstOffset, old(src[..])[srcOffset..srcOffset + n])
  {
    ghost var was, cells := dst[..], src[srcOffset..srcOffset + n];
    if n == 0 || (dst == src && dstOffset == srcOffset) {
      OverwrittenIs(was, dstOffset, cells, dst[..]);
      return;
    }
    if typed {
      forall k | 0 <= k < n { dst[dstOffset + k] := src[srcOffset + k]; }
    } else if dst == src && dstOffset > srcOffset {
      var i := n - 1;
      while i >= 0
        invariant -1 <= i < n
        invariant forall k | 0 <= k < dst.Length ::
                    dst[k] == if dstOffset + i < k < dstOffset + n then cells[k - dstOffset] else was[k]
      {
        dst[dstOffset + i] := src[srcOffset + i];
        i := i - 1;
      }
    } else {
      for i := 0 to n
        invariant forall k | 0 <= k < dst.Length ::
                    dst[k] == if dstOffset <= k < dstOffset + i then cells[k - dstOffset] else was[k]
        invariant dst != src ==> src[..] == old(src[..])
      {
        dst[dstOffset + i] := src[srcOffset + i];
      }
    }
    OverwrittenIs(was, dstOffset, cells, dst[..]);
  }

  /** An element of struct or array kind: a cell holds a reference to it, and elem.copy writes into it. */
  class Struct {
    var v: int
    constructor (v: int)
      ensures this.v == v
    { this.v := v; }
  }

  function Contents(a: array<Struct>): (r: seq<int>)
    reads a, a[..]
    ensures |r| == a.Length && forall i | 0 <= i < a.Length :: r[i] == a[i].v
  {
    seq(a.Length, i requires 0 <= i < a.Length reads a, a[..] => a[i].v)
  }

  /** No two cells refer to one element. */
  ghost predicate Separate(a: array<Struct>, b: array<Struct>)
    reads a, b
  {
    && (forall i, j | 0 <= i < j < a.Length :: a[i] != a[j])
    && (forall i, j | 0 <= i < j < b.Length :: b[i] != b[j])
    && (a != b ==> forall i, j | 0 <= i < a.Length && 0 <= j < b.Length :: a[i] != b[j])
  }

  /** The same for structs and arrays: the contents are copied, and every cell keeps its element. */
  method CopyStructs(dst: array<Struct>, src: array<Struct>, dstOffset: nat, srcOffset: nat, n: nat)
    requires dstOffset + n <= dst.Length && srcOffset + n <= src.Length && Separate(dst, src)
    modifies dst[..]
    ensures Contents(dst) == Overwritten(old(Contents(dst)), dstOffset, old(Contents(src))[srcOffset..srcOffset + n])
    ensures dst != src ==> Contents(src) == old(Contents(src))
  {
    ghost var was, cells := Contents(dst), Contents(src)[srcOffset..srcOffset + n];
    if n == 0 || (dst == src && dstOffset == srcOffset) {
      OverwrittenIs(was, dstOffset, cells, Contents(dst));
      return;
    }
    if dst == src && dstOffset > srcOffset {
      CopyBackwards(dst, dstOffset, srcOffset, n);
    } else {
      CopyForwards(dst, src, dstOffset, srcOffset, n);
    }
    OverwrittenIs(was, dstOffset, cells, Contents(dst));
  }

  method CopyBackwards(a: array<Struct>, dstOffset: nat, srcOffset: nat, n: nat)
    requires srcOffset < dstOffset && dstOffset + n <= a.Length && Separate(a, a)
    modifies a[..]
    ensures forall k | 0 <= k < a.Length ::
              a[k].v == if dstOffset <= k < dstOffset + n then old(a[srcOffset + (k - dstOffset)].v) else old(a[k].v)
  {
    var i := n - 1;
    while i >= 0
      invariant -1 <= i < n
      invariant forall k | 0 <= k <= dstOffset + i && k < a.Length :: a[k].v == old(a[k].v)
      invariant forall k | dstOffset + i < k < dstOffset + n :: a[k].v == old(a[srcOffset + (k - dstOffset)].v)
      invariant forall k | dstOffset + n <= k < a.Length :: a[k].v == old(a[k].v)
    {
      a[dstOffset + i].v := a[srcOffset + i].v;
      i := i - 1;
    }
  }

  method CopyForwards(dst: array<Struct>, src: array<Struct>, dstOffset: nat, srcOffset: nat, n: nat)
    requires dstOffset + n <= dst.Length && srcOffset + n <= src.Length && Separate(dst, src)
    requires dst == src ==> dstOffset < srcOffset
    modifies dst[..]
    ensures forall k | 0 <= k < dst.Length ::
              dst[k].v == if dstOffset <= k < dstOffset + n then old(src[srcOffset + (k - dstOffset)].v)
                          else old(dst[k].v)
    ensures dst != src ==> forall k | 0 <= k < src.Length :: src[k].v == old(src[k].v)
  {
    for i := 0 to n
      invariant forall k | 0 <= k < dstOffset || dstOffset + i <= k < dst.Length :: dst[k].v == old(dst[k].v)
      invariant forall k | dstOffset <= k < dstOffset + i :: dst[k].v == old(src[srcOffset + (k - dstOffset)].v)
      invariant dst != src ==> forall k | 0 <= k < src.Length :: src[k].v == old(src[k].v)
    {
      dst[dstOffset + i].v := src[srcOffset + i].v;
    }
  }

  datatype Bound = Undefined | At(n: int)

  function Resolved(b: Bound, default: int): int {
    if b.At? then b.n else default
  }

  /** $subslice: a window of the same array, or a panic exactly when the bounds are out of order or
      past the capacity.  A nil slice stays nil. */
  method Subslice(s: Slice, low: int, high: Bound, max: Bound) returns (r: Result)
    requires Fits(s) && (s.isNil ==> s.capacity == 0)
    ensures var h, m := Resolved(high, s.length), Resolved(max, s.capacity);
            && (r.OutOfRange? <==> !(0 <= low <= h <= m <= s.capacity))
            && (r.Ok? ==> Fits(r.s) && r.s.a == s.a && r.s.isNil == s.isNil
                          && r.s.offset == s.offset + low && r.s.length == h - low && r.s.capacity == m - low)
            && (r.Ok? && h <= s.length ==> View(r.s) == View(s)[low..h])
  {
    var h := if high.Undefined? then s.length else high.n;
    var m := if max.Undefined? then s.capacity else max.n;
    if low < 0 || h < low || m < h || h > s.capacity || m > s.capacity { return OutOfRange; }
    if s.isNil { return Ok(s); }
    if h <= s.length { WindowOfWindow(s.a[..], s.offset, s.length, low, h); }
    return Ok(Slice(s.a, s.offset + low, h - low, m - low, false));
  }

  lemma WindowOfWindow(cells: seq<int>, offset: nat, length: nat, low: nat, high: nat)
    requires offset + length <= |cells| && low <= high <= length
    ensures cells[offset + low..offset + high] == cells[offset..offset + length][low..high]
  {
    var a, b := cells[offset + low..offset + high], cells[offset..offset + length][low..high];
    assert |a| == |b|;
    forall k | 0 <= k < |a| ensures a[k] == b[k] { assert a[k] == cells[offset + low + k]; }
  }

  /** $makeSlice: zeros in an array of its own, or a panic for a length or a capacity out of range. */
  method MakeSlice(length: int, capacity: Bound) returns (r: Result)
    ensures var c := Resolved(capacity, length);
            && (r.Ok? <==> 0 <= length <= c <= 0x7FFF_FFFF)
            && (r.Ok? ==> Fits(r.s) && fresh(r.s.a) && r.s.offset == 0 && r.s.a.Length == r.s.capacity == c
                          && !r.s.isNil && r.s.length == length && forall k | 0 <= k < c :: r.s.a[k] == 0)
  {
    var c := if capacity.Undefined? then length else capacity.n;
    if length < 0 || length > 0x7FFF_FFFF { return OutOfRange; }
    if c < 0 || c < length || c > 0x7FFF_FFFF { return OutOfRange; }
    var a := new int[c](_ => 0);
    return Ok(Slice(a, 0, length, c, false));
  }

  /** The larger of what is asked for and the old capacity grown: doubled below 1024, and by a quarter from there,
      rounded down. */
  predicate NewCapacity(c: int, minCapacity: int, oldCapacity: int) {
    && c >= minCapacity
    && (oldCapacity < 1024 ==> c == minCapacity || c == 2 * oldCapacity)
    && (oldCapacity < 1024 ==> c >= 2 * oldCapacity)
    && (oldCapacity >= 1024 ==> c == minCapacity || 4 * c <= 5 * oldCapacity)
    && (oldCapacity >= 1024 ==> 5 * oldCapacity < 4 * c + 4)
  }

  function CalculateNewCapacity(minCapacity: nat, oldCapacity: nat): (c: nat)
    ensures NewCapacity(c, minCapacity, oldCapacity)
  {
    var grown := if oldCapacity < 1024 then oldCapacity * 2 else oldCapacity * 5 / 4;
    if minCapacity >= grown then minCapacity else grown
  }

  /** $growSlice: the same window, of the same array if the capacity suffices and else of a new one. */
  method GrowSlice(s: Slice, minCapacity: nat) returns (r: Slice)
    requires Fits(s)
    ensures Fits(r) && View(r) == View(s) && r.length == s.length && r.capacity >= minCapacity && !r.isNil
    ensures minCapacity <= s.capacity ==> r.a == s.a && r.offset == s.offset && r.capacity == s.capacity
    ensures minCapacity > s.capacity ==> fresh(r.a) && r.offset == 0 && r.capacity == r.a.Length
                                         && NewCapacity(r.capacity, minCapacity, s.capacity)
    ensures minCapacity > s.capacity ==> forall k | s.length <= k < r.a.Length :: r.a[k] == 0
  {
    var a, offset, capacity := s.a, s.offset, s.capacity;
    if minCapacity > capacity {
      capacity := CalculateNewCapacity(minCapacity, capacity);
      var grown := new int[capacity](_ => 0);
      for i := 0 to s.length
        invariant forall k | 0 <= k < capacity :: grown[k] == if k < i then s.a[s.offset + k] else 0
      {
        grown[i] := s.a[s.offset + i];
      }
      a, offset := grown, 0;
    }
    r := Slice(a, offset, s.length, capacity, false);
    assert View(r) == View(s);
  }

  /** $internalAppend: the old elements followed by the new ones, even when those lie in the same array.
      Within capacity only the cells after the old end are written; otherwise nothing old is. */
  method InternalAppend(s: Slice, src: array<int>, offset: nat, length: nat, typed: bool) returns (r: Slice)
    requires Fits(s) && offset + length <= src.Length
    modifies s.a
    ensures Fits(r) && View(r) == old(View(s)) + old(src[..])[offset..offset + length]
    ensures length == 0 ==> r == s && s.a[..] == old(s.a[..])
    ensures 0 < length && s.length + length <= s.capacity ==>
              r.a == s.a && r.offset == s.offset && r.capacity == s.capacity
              && s.a[..] == Overwritten(old(s.a[..]), s.offset + s.length, old(src[..])[offset..offset + length])
    ensures s.length + length > s.capacity ==>
              && fresh(r.a) && s.a[..] == old(s.a[..]) && r.offset == 0 && r.capacity == r.a.Length
              && NewCapacity(r.capacity, s.length + length, s.capacity)
              && forall k | r.length <= k < r.capacity :: r.a[k] == 0
    ensures 0 < length ==> !r.isNil
  {
    hide Overwritten, NewCapacity;
    if length == 0 { return s; }
    var grown := GrowSlice(s, s.length + length);
    assert View(grown) == old(View(s)) && src[..] == old(src[..]) && s.a[..] == old(s.a[..]);
    hide View;
    ghost var was := s.a[..];
    r := CopyBehind(grown, src, offset, length, typed);
    assert s.length + length > s.capacity ==> s.a[..] == was;
  }

  /** The end of $internalAppend: the new elements go behind the old ones. */
  method CopyBehind(s: Slice, src: array<int>, offset: nat, length: nat, typed: bool) returns (r: Slice)
    requires Fits(s) && s.length + length <= s.capacity && offset + length <= src.Length
    modifies s.a
    ensures r == s.(length := s.length + length) && View(r) == old(View(s)) + old(src[..])[offset..offset + length]
    ensures s.a[..] == Overwritten(old(s.a[..]), s.offset + s.length, old(src[..])[offset..offset + length])
    ensures forall k | s.offset + s.length + length <= k < s.a.Length :: s.a[k] == old(s.a[k])
  {
    ghost var was, cells := s.a[..], src[..][offset..offset + length];
    CopyArray(s.a, src, s.offset + s.length, offset, length, typed);
    r := s.(length := s.length + length);
    ghost var now := s.a[..];
    AppendedView(was, s.offset, s.length, cells, now);
    assert forall k | s.offset + s.length + length <= k < |now| :: now[k] == was[k];
  }

  lemma AppendedView(was: seq<int>, offset: nat, length: nat, cells: seq<int>, now: seq<int>)
    requires offset + length + |cells| <= |was| && now == Overwritten(was, offset + length, cells)
    ensures now[offset..offset + length + |cells|] == was[offset..offset + length] + cells
    ensures forall k | offset + length + |cells| <= k < |was| :: now[k] == was[k]
  {
    var v := now[offset..offset + length + |cells|];
    forall k | 0 <= k < |v| ensures v[k] == (was[offset..offset + length] + cells)[k] {
      assert v[k] == now[offset + k];
    }
  }

  /** $copySlice: copy, of as many elements as both have. */
  method CopySlice(dst: Slice, src: Slice, typed: bool) returns (n: nat)
    requires Fits(dst) && Fits(src)
    modifies dst.a
    ensures n == if src.length < dst.length then src.length else dst.length
    ensures View(dst) == Overwritten(old(View(dst)), 0, old(View(src))[..n])
    ensures dst.a[..] == Overwritten(old(dst.a[..]), dst.offset, old(View(src))[..n])
  {
    n := if src.length < dst.length then src.length else dst.length;
    ghost var was, cells := dst.a[..], View(src)[..n];
    Prefix(src.a[..], src.offset, src.length, n);
    CopyArray(dst.a, src.a, dst.offset, src.offset, n, typed);
    CopiedView(was, dst.offset, dst.length, cells, dst.a[..]);
  }

  lemma Prefix(cells: seq<int>, offset: nat, length: nat, n: nat)
    requires offset + length <= |cells| && n <= length
    ensures cells[offset..offset + length][..n] == cells[offset..offset + n]
  {
    var a, b := cells[offset..offset + length][..n], cells[offset..offset + n];
    forall k | 0 <= k < n ensures a[k] == b[k] { assert b[k] == cells[offset + k]; }
  }

  lemma CopiedView(was: seq<int>, offset: nat, length: nat, cells: seq<int>, now: seq<int>)
    requires offset + length <= |was| && |cells| <= length && now == Overwritten(was, offset, cells)
    ensures now[offset..offset + length] == Overwritten(was[offset..offset + length], 0, cells)
  {
    var v := now[offset..offset + length];
    forall k | 0 <= k < |v| ensures v[k] == Overwritten(was[offset..offset + length], 0, cells)[k] {
      assert v[k] == now[offset + k];
    }
  }

  /** Another slice of the same array sees an append within capacity exactly where its window reaches
      past the old end of the appended slice. */
  lemma SharedWindow(was: seq<int>, at: nat, cells: seq<int>, now: seq<int>, offset: nat, length: nat)
    requires at + |cells| <= |was| && now == Overwritten(was, at, cells) && offset + length <= |was|
    ensures var before, after := was[offset..offset + length], now[offset..offset + length];
            forall k | 0 <= k < length ::
              after[k] == if at <= offset + k < at + |cells| then cells[offset + k - at] else before[k]
    ensures offset + length <= at ==> now[offset..offset + length] == was[offset..offset + length]
  { }
}
