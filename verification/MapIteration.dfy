/** Iterate of compiler/internal/typeparams/map.go with a callback that changes the map, on one bucket: the
    loop ranges over the array that the bucket had when the loop began. */
module MapIteration {

  datatype Option<+T> = None | Some(value: T)

  /** The keys of the bucket; two instances that candidateArgsMatch takes for one are one key. */
  type Key = nat

  /** A pointer to an entry. */
  type Id = nat

  datatype Entry<V> = Entry(key: Key, value: V)

  type Cells = seq<Option<Id>>

  /** What the callback does to the map. */
  datatype Op<V> = DoSet(key: Key, value: V) | DoDelete(key: Key)

  /** The entries, what the loop ranges over, and the bucket with its capacity.  `shared`: these are one array. */
  datatype Loop<V> = Loop(heap: seq<Entry<V>>, seen: Cells, cells: Cells, cap: nat, shared: bool)

  // ----- the map's operations -----

  predicate Matches<V>(heap: seq<Entry<V>>, c: Option<Id>, k: Key) {
    c.Some? && c.value < |heap| && heap[c.value].key == k
  }

  /** findIndex: the first place whose entry has the key, or the end. */
  function Find<V>(heap: seq<Entry<V>>, cells: Cells, k: Key): (i: nat)
    ensures i <= |cells| && (i < |cells| ==> Matches(heap, cells[i], k))
    ensures forall j | 0 <= j < i :: !Matches(heap, cells[j], k)
  {
    if cells == [] || Matches(heap, cells[0], k) then 0 else 1 + Find(heap, cells[1..], k)
  }

  /** The last hole, or the end. */
  function LastHole(cells: Cells): (i: nat)
    ensures i <= |cells| && (i < |cells| ==> cells[i].None? && forall j | i < j < |cells| :: cells[j].Some?)
    ensures i == |cells| ==> forall j | 0 <= j < |cells| :: cells[j].Some?
  {
    if cells == [] then 0
    else
      var front := cells[..|cells| - 1];
      if cells[|cells| - 1].None? then |cells| - 1
      else if LastHole(front) == |front| then |cells| else LastHole(front)
  }

  /** A write into the bucket's array. */
  function Store<V>(l: Loop<V>, i: nat, c: Option<Id>): Loop<V>
    requires i < |l.cells|
  {
    l.(cells := l.cells[i := c], seen := if l.shared && i < |l.seen| then l.seen[i := c] else l.seen)
  }

  function Delete<V>(l: Loop<V>, k: Key): Loop<V> {
    var i := Find(l.heap, l.cells, k);
    if i < |l.cells| then Store(l, i, None) else l
  }

  /** `append` writes into the array while there is room, and into a new one otherwise, whose room depends on the
      length. */
  function Append<V>(l: Loop<V>, c: Option<Id>, more: nat -> nat): Loop<V> {
    if |l.cells| < l.cap then l.(cells := l.cells + [c])
    else l.(cells := l.cells + [c], cap := |l.cells| + 1 + more(|l.cells|), shared := false)
  }

  function Set<V>(l: Loop<V>, k: Key, v: V, more: nat -> nat): Loop<V> {
    var i := Find(l.heap, l.cells, k);
    if i < |l.cells| then l.(heap := l.heap[l.cells[i].value := Entry(k, v)])
    else
      var m := l.(heap := l.heap + [Entry(k, v)]);
      var hole := LastHole(l.cells);
      if hole < |l.cells| then Store(m, hole, Some(|l.heap|)) else Append(m, Some(|l.heap|), more)
  }

  function Do<V>(l: Loop<V>, op: Op<V>, more: nat -> nat): Loop<V> {
    match op
    case DoSet(k, v) => Set(l, k, v, more)
    case DoDelete(k) => Delete(l, k)
  }

  // ----- the loop -----

  datatype Visit<V> = Visit(id: Id, key: Key, value: V)

  /** What has happened: the calls of f, those of them for an entry that was no longer in the map, and the
      entries that were deleted before the loop reached them, while the arrays were one and afterwards. */
  datatype Log<V> = Log(visits: seq<Visit<V>>, dead: set<Id>, dropped: set<Id>, lost: set<Id>)

  /** The entry that an operation deletes, when the loop has yet to come to it. */
  function Unreached<V>(l: Loop<V>, i: nat, op: Op<V>): set<Id> {
    if op.DoDelete? then
      var p := Find(l.heap, l.cells, op.key);
      if i < p < |l.cells| && p < |l.seen| && l.seen[p] == l.cells[p] then {l.cells[p].value} else {}
    else {}
  }

  function Noted<V>(l: Loop<V>, i: nat, op: Op<V>, log: Log<V>): Log<V> {
    if l.shared then log.(dropped := log.dropped + Unreached(l, i, op))
    else log.(lost := log.lost + Unreached(l, i, op))
  }

  function DoAll<V>(l: Loop<V>, i: nat, ops: seq<Op<V>>, log: Log<V>, more: nat -> nat): (Loop<V>, Log<V>)
    decreases |ops|
  {
    if ops == [] then (l, log)
    else DoAll(Do(l, ops[0], more), i, ops[1..], Noted(l, i, ops[0], log), more)
  }

  function Called<V>(l: Loop<V>, id: Id, log: Log<V>): Log<V>
    requires id < |l.heap|
  {
    log.(visits := log.visits + [Visit(id, l.heap[id].key, l.heap[id].value)],
         dead := if Some(id) in l.cells then log.dead else log.dead + {id})
  }

  /** The loop from cell i on.  What f does may depend on all its calls so far. */
  ghost function Iterated<V>(l: Loop<V>, i: nat, f: seq<Visit<V>> -> seq<Op<V>>, log: Log<V>, more: nat -> nat): Log<V>
    requires Ok(l) && i <= |l.seen|
    decreases |l.seen| - i
  {
    if i == |l.seen| then log
    else if l.seen[i].None? then Iterated(l, i + 1, f, log, more)
    else
      var called := Called(l, l.seen[i].value, log);
      AllKeep(l, i, f(called.visits), called, more);
      var (m, after) := DoAll(l, i, f(called.visits), called, more);
      Iterated(m, i + 1, f, after, more)
  }

  // ----- what stays true of the two arrays -----

  predicate Distinct(cells: Cells) {
    forall i, j | 0 <= i < j < |cells| && cells[i].Some? :: cells[i] != cells[j]
  }

  predicate Known(cells: Cells, n: nat) {
    forall i | 0 <= i < |cells| && cells[i].Some? :: cells[i].value < n
  }

  /** No two entries of the bucket have one key. */
  predicate OneEach<V>(heap: seq<Entry<V>>, cells: Cells)
    requires Known(cells, |heap|)
  {
    forall i, j | 0 <= i < j < |cells| && cells[i].Some? && cells[j].Some? ::
      heap[cells[i].value].key != heap[cells[j].value].key
  }

  /** An entry is never moved. */
  predicate Ok<V>(l: Loop<V>) {
    && |l.seen| <= |l.cells| <= l.cap
    && Known(l.seen, |l.heap|) && Known(l.cells, |l.heap|) && Distinct(l.seen) && OneEach(l.heap, l.cells)
    && (l.shared ==> l.cells[..|l.seen|] == l.seen)
    && (forall i, j | 0 <= i < |l.seen| && 0 <= j < |l.cells| && l.seen[i].Some? && l.seen[i] == l.cells[j] :: i == j)
  }

  predicate Fresh<V>(l: Loop<V>, c: Option<Id>) {
    && c.Some? && c.value < |l.heap| && c !in l.cells && c !in l.seen
    && Known(l.cells, |l.heap|) && forall i | 0 <= i < |l.cells| :: !Matches(l.heap, l.cells[i], l.heap[c.value].key)
  }

  lemma StoreKeeps<V>(l: Loop<V>, i: nat, c: Option<Id>)
    requires Ok(l) && i < |l.cells| && (c == None || Fresh(l, c))
    ensures Ok(Store(l, i, c))
  {
    var m := Store(l, i, c);
    if l.shared { assert m.cells[..|l.seen|] == m.seen; }
  }

  lemma AppendKeeps<V>(l: Loop<V>, c: Option<Id>, more: nat -> nat)
    requires Ok(l) && Fresh(l, c)
    ensures Ok(Append(l, c, more))
  {
    assert (l.cells + [c])[..|l.seen|] == l.cells[..|l.seen|];
  }

  lemma NewEntry<V>(l: Loop<V>, k: Key, v: V)
    requires Ok(l) && Find(l.heap, l.cells, k) == |l.cells|
    ensures var m := l.(heap := l.heap + [Entry(k, v)]); Ok(m) && Fresh(m, Some(|l.heap|))
  {
    var m := l.(heap := l.heap + [Entry(k, v)]);
    assert forall i | 0 <= i < |l.heap| :: m.heap[i] == l.heap[i];
    forall i | 0 <= i < |l.cells| ensures !Matches(m.heap, l.cells[i], k) { assert !Matches(l.heap, l.cells[i], k); }
  }

  lemma NewValue<V>(l: Loop<V>, i: nat, v: V)
    requires Ok(l) && i < |l.heap|
    ensures Ok(l.(heap := l.heap[i := Entry(l.heap[i].key, v)]))
  {
    var heap := l.heap[i := Entry(l.heap[i].key, v)];
    assert forall j | 0 <= j < |l.heap| :: heap[j].key == l.heap[j].key;
  }

  lemma DoKeeps<V>(l: Loop<V>, op: Op<V>, more: nat -> nat)
    requires Ok(l)
    ensures Ok(Do(l, op, more)) && |Do(l, op, more).seen| == |l.seen| && |Do(l, op, more).heap| >= |l.heap|
  {
    hide Ok, Fresh;
    match op
    case DoDelete(k) =>
      var i := Find(l.heap, l.cells, k);
      if i < |l.cells| { StoreKeeps(l, i, None); }
    case DoSet(k, v) =>
      var i := Find(l.heap, l.cells, k);
      if i < |l.cells| {
        NewValue(l, l.cells[i].value, v);
      } else {
        NewEntry(l, k, v);
        var m := l.(heap := l.heap + [Entry(k, v)]);
        var hole := LastHole(l.cells);
        if hole < |l.cells| { StoreKeeps(m, hole, Some(|l.heap|)); } else { AppendKeeps(m, Some(|l.heap|), more); }
      }
  }

  lemma {:induction false} AllKeep<V>(l: Loop<V>, i: nat, ops: seq<Op<V>>, log: Log<V>, more: nat -> nat)
    requires Ok(l)
    ensures var (m, after) := DoAll(l, i, ops, log, more);
            Ok(m) && |m.seen| == |l.seen| && after.visits == log.visits && after.dead == log.dead
    decreases |ops|
  {
    if ops != [] {
      DoKeeps(l, ops[0], more);
      hide Ok;
      AllKeep(Do(l, ops[0], more), i, ops[1..], Noted(l, i, ops[0], log), more);
    }
  }

  // ----- what an operation does to the map -----

  /** The bucket has an entry with this key and value. */
  ghost predicate Holds<V>(l: Loop<V>, k: Key, v: V) {
    exists i | 0 <= i < |l.cells| :: l.cells[i].Some? && l.cells[i].value < |l.heap|
        && l.heap[l.cells[i].value] == Entry(k, v)
  }

  /** Afterwards the key has the value that was set, or no value, and the other keys have theirs. */
  lemma OpOnMap<V>(l: Loop<V>, op: Op<V>, more: nat -> nat)
    requires Ok(l)
    ensures forall k, v ::
              Holds(Do(l, op, more), k, v) <==> if k == op.key then op.DoSet? && v == op.value else Holds(l, k, v)
  {
    match op
    case DoDelete(k) => DeleteOnMap(l, k);
    case DoSet(k, v) =>
      if Find(l.heap, l.cells, k) < |l.cells| { OverwriteOnMap(l, k, v, more); } else { InsertOnMap(l, k, v, more); }
  }

  lemma DeleteOnMap<V>(l: Loop<V>, k: Key)
    requires Ok(l)
    ensures forall h, v :: Holds(Delete(l, k), h, v) <==> h != k && Holds(l, h, v)
  {
    var m, p := Delete(l, k), Find(l.heap, l.cells, k);
    forall h, v | h != k && Holds(l, h, v) ensures Holds(m, h, v) {
      var i :| 0 <= i < |l.cells| && l.cells[i].Some? && l.heap[l.cells[i].value] == Entry(h, v);
      assert i != p && m.cells[i] == l.cells[i];
    }
    forall h, v | Holds(m, h, v) ensures h != k && Holds(l, h, v) {
      var i :| 0 <= i < |m.cells| && m.cells[i].Some? && m.heap[m.cells[i].value] == Entry(h, v);
      assert l.cells[i] == m.cells[i];
      assert h == k ==> Matches(l.heap, l.cells[i], k);
    }
  }

  lemma OverwriteOnMap<V>(l: Loop<V>, k: Key, w: V, more: nat -> nat)
    requires Ok(l) && Find(l.heap, l.cells, k) < |l.cells|
    ensures forall h, v :: Holds(Set(l, k, w, more), h, v) <==> if h == k then v == w else Holds(l, h, v)
  {
    var m, p := Set(l, k, w, more), Find(l.heap, l.cells, k);
    assert m.cells[p] == l.cells[p] && m.heap[m.cells[p].value] == Entry(k, w);
    forall i | 0 <= i < |l.cells| && l.cells[i].Some? && i != p
      ensures m.heap[l.cells[i].value] == l.heap[l.cells[i].value] && l.heap[l.cells[i].value].key != k
    { }
    forall h, v | h != k && Holds(l, h, v) ensures Holds(m, h, v) {
      var i :| 0 <= i < |l.cells| && l.cells[i].Some? && l.heap[l.cells[i].value] == Entry(h, v);
      assert m.cells[i] == l.cells[i];
    }
    forall h, v | Holds(m, h, v) ensures if h == k then v == w else Holds(l, h, v) {
      var i :| 0 <= i < |m.cells| && m.cells[i].Some? && m.heap[m.cells[i].value] == Entry(h, v);
      assert l.cells[i] == m.cells[i];
    }
  }

  lemma Inserted<V>(l: Loop<V>, k: Key, w: V, more: nat -> nat)
    requires Ok(l) && Find(l.heap, l.cells, k) == |l.cells|
    ensures var m, p := Set(l, k, w, more), LastHole(l.cells);
            && m.heap == l.heap + [Entry(k, w)] && p < |m.cells| && m.cells[p] == Some(|l.heap|)
            && |l.cells| <= |m.cells| && (p < |l.cells| ==> l.cells[p].None?)
            && forall i | 0 <= i < |m.cells| && i != p :: i < |l.cells| && m.cells[i] == l.cells[i]
  { }

  lemma InsertOnMap<V>(l: Loop<V>, k: Key, w: V, more: nat -> nat)
    requires Ok(l) && Find(l.heap, l.cells, k) == |l.cells|
    ensures forall h, v :: Holds(Set(l, k, w, more), h, v) <==> if h == k then v == w else Holds(l, h, v)
  {
    hide Set, Find, LastHole;
    var m, p := Set(l, k, w, more), LastHole(l.cells);
    Inserted(l, k, w, more);
    forall h, v | h != k && Holds(l, h, v) ensures Holds(m, h, v) {
      var i :| 0 <= i < |l.cells| && l.cells[i].Some? && l.heap[l.cells[i].value] == Entry(h, v);
      assert m.cells[i] == l.cells[i];
    }
    forall h, v | Holds(m, h, v) ensures if h == k then v == w else Holds(l, h, v) {
      var i :| 0 <= i < |m.cells| && m.cells[i].Some? && m.heap[m.cells[i].value] == Entry(h, v);
      if i != p { assert l.cells[i] == m.cells[i] && !Matches(l.heap, l.cells[i], k); }
    }
    assert m.heap[m.cells[p].value] == Entry(k, w);
  }

  // ----- which deleted entries f is called for -----

  ghost predicate Ahead<V>(l: Loop<V>, i: nat, id: Id) {
    exists j | i <= j < |l.seen| :: l.seen[j] == Some(id)
  }

  ghost predicate IsVisited<V>(log: Log<V>, id: Id) {
    exists v | v in log.visits :: v.id == id
  }

  /** From cell i on, exactly the lost entries that the loop still has before it are not in the map. */
  ghost predicate LostOk<V>(l: Loop<V>, i: nat, log: Log<V>) {
    && (forall id: Id | Ahead(l, i, id) :: Some(id) !in l.cells <==> id in log.lost)
    && (forall id: Id | id in log.lost :: id < |l.heap| && (id in log.dead || Ahead(l, i, id)))
    && log.dead <= log.lost
    && (forall id: Id | id in log.dead :: IsVisited(log, id))
  }

  /** Nobody is called for twice, or after he was dropped; who was there at the beginning has been called for,
      or dropped, or is still to come. */
  ghost predicate VisitsOk<V>(l: Loop<V>, i: nat, log: Log<V>, start: set<Id>) {
    && (forall v | v in log.visits :: v.id < |l.heap| && !Ahead(l, i, v.id) && v.id !in log.dropped)
    && (forall j, k | 0 <= j < k < |log.visits| :: log.visits[j].id != log.visits[k].id)
    && (forall id: Id | id in log.dropped :: id < |l.heap| && !Ahead(l, i, id))
    && (forall id: Id | id in start :: IsVisited(log, id) || id in log.dropped || Ahead(l, i, id))
  }

  lemma CalledKeeps<V>(l: Loop<V>, i: nat, log: Log<V>, start: set<Id>)
    requires Ok(l) && i < |l.seen| && l.seen[i].Some? && LostOk(l, i, log) && VisitsOk(l, i, log, start)
    ensures var after := Called(l, l.seen[i].value, log); LostOk(l, i + 1, after) && VisitsOk(l, i + 1, after, start)
  {
    var id := l.seen[i].value;
    var after := Called(l, id, log);
    assert Ahead(l, i, id) && !Ahead(l, i + 1, id);
    assert forall x: Id | x != id :: Ahead(l, i, x) <==> Ahead(l, i + 1, x);
    assert after.visits[|log.visits|].id == id;
    assert IsVisited(after, id);
    forall x: Id | IsVisited(log, x) ensures IsVisited(after, x) { }
    hide Ahead, IsVisited, Ok;
  }

  /** What an operation of f does to what is in the map and to what the loop has before it. */
  ghost predicate Removes<V>(l: Loop<V>, m: Loop<V>, i: nat, id: Id) {
    && m.heap == l.heap && m.shared == l.shared
    && (forall x: Id :: Some(x) in m.cells <==> Some(x) in l.cells && x != id)
    && (forall x: Id :: Ahead(m, i, x) <==> Ahead(l, i, x) && !(l.shared && x == id))
  }

  ghost predicate Adds<V>(l: Loop<V>, m: Loop<V>, i: nat) {
    && |m.heap| >= |l.heap| && (m.shared ==> l.shared)
    && (forall x: Id | x < |l.heap| :: Some(x) in m.cells <==> Some(x) in l.cells)
    && (forall x: Id | Ahead(l, i, x) :: Ahead(m, i, x))
    && (forall x: Id | x < |l.heap| && Ahead(m, i, x) :: Ahead(l, i, x))
    && (forall x: Id | x >= |l.heap| && Ahead(m, i, x) :: Some(x) in m.cells)
  }

  lemma DeleteRemoves<V>(l: Loop<V>, i: nat, from: nat, k: Key)
    requires Ok(l) && Find(l.heap, l.cells, k) < |l.cells| && from == i + 1
    ensures var id := l.cells[Find(l.heap, l.cells, k)].value;
            && Removes(l, Delete(l, k), from, id) && Some(id) in l.cells
            && Unreached(l, i, DoDelete(k)) == if Ahead(l, from, id) then {id} else {}
  {
    var p := Find(l.heap, l.cells, k);
    var id := l.cells[p].value;
    var m := Delete(l, k);
    assert forall j | 0 <= j < |l.cells| && j != p :: l.cells[j] != Some(id) && m.cells[j] == l.cells[j];
    forall x: Id ensures Some(x) in m.cells <==> Some(x) in l.cells && x != id {
      if Some(x) in l.cells && x != id {
        var j :| 0 <= j < |l.cells| && l.cells[j] == Some(x);
        assert m.cells[j] == Some(x);
      }
    }
    AheadAfterDelete(l, i, from, k);
  }

  lemma AheadAfterDelete<V>(l: Loop<V>, i: nat, from: nat, k: Key)
    requires Ok(l) && Find(l.heap, l.cells, k) < |l.cells| && from == i + 1
    ensures var id := l.cells[Find(l.heap, l.cells, k)].value;
            && (forall x: Id :: Ahead(Delete(l, k), from, x) <==> Ahead(l, from, x) && !(l.shared && x == id))
            && Unreached(l, i, DoDelete(k)) == if Ahead(l, from, id) then {id} else {}
  {
    var p := Find(l.heap, l.cells, k);
    var id := l.cells[p].value;
    var m := Delete(l, k);
    assert l.shared && p < |l.seen| ==> l.cells[..|l.seen|][p] == l.seen[p];
    forall x: Id | Ahead(l, from, x) && !(l.shared && x == id) ensures Ahead(m, from, x) {
      var j :| from <= j < |l.seen| && l.seen[j] == Some(x);
      assert m.seen[j] == Some(x);
    }
    forall x: Id | Ahead(m, from, x) ensures Ahead(l, from, x) && !(l.shared && x == id) {
      var j :| from <= j < |m.seen| && m.seen[j] == Some(x);
      assert l.seen[j] == Some(x);
    }
    if j :| from <= j < |l.seen| && l.seen[j] == Some(id) { assert j == p; }
  }

  lemma SetAdds<V>(l: Loop<V>, from: nat, k: Key, v: V, more: nat -> nat)
    requires Ok(l)
    ensures Adds(l, Set(l, k, v, more), from)
  {
    if Find(l.heap, l.cells, k) == |l.cells| {
      SeenAfterSet(l, k, v, more);
      NewIn(l, k, v, more);
      AheadAfterSet(l, from, k, v, more);
      hide Ahead, Find, LastHole, Ok;
    }
  }

  lemma AheadAfterSet<V>(l: Loop<V>, from: nat, k: Key, v: V, more: nat -> nat)
    requires Ok(l) && Find(l.heap, l.cells, k) == |l.cells|
    ensures var m := Set(l, k, v, more);
            && (forall x: Id | Ahead(l, from, x) :: Ahead(m, from, x))
            && (forall x: Id | x < |l.heap| && Ahead(m, from, x) :: Ahead(l, from, x))
            && (forall x: Id | x > |l.heap| :: !Ahead(m, from, x))
  {
    hide Set, Find;
    SeenAfterSet(l, k, v, more);
    var m := Set(l, k, v, more);
    forall x: Id | Ahead(l, from, x) ensures Ahead(m, from, x) {
      var j :| from <= j < |l.seen| && l.seen[j] == Some(x);
      assert m.seen[j] == Some(x);
    }
    forall x: Id | x < |l.heap| && Ahead(m, from, x) ensures Ahead(l, from, x) {
      var j :| from <= j < |m.seen| && m.seen[j] == Some(x);
      assert l.seen[j] == Some(x);
    }
  }

  lemma NewIn<V>(l: Loop<V>, k: Key, v: V, more: nat -> nat)
    requires Ok(l) && Find(l.heap, l.cells, k) == |l.cells|
    ensures var m := Set(l, k, v, more);
            && (forall x: Id | x != |l.heap| :: Some(x) in m.cells <==> Some(x) in l.cells)
            && Some(|l.heap|) in m.cells
  {
    var m, hole := Set(l, k, v, more), LastHole(l.cells);
    assert hole < |m.cells| && m.cells[hole] == Some(|l.heap|);
    InAfter(l.cells, m.cells, hole, |l.heap|);
  }

  lemma InAfter(was: Cells, now: Cells, hole: nat, n: nat)
    requires |was| <= |now| && hole < |now| && now[hole] == Some(n) && |now| <= |was| + 1
    requires forall j | 0 <= j < |was| && j != hole :: now[j] == was[j]
    requires (hole < |was| ==> was[hole] == None) && (|now| > |was| ==> hole == |was|)
    ensures forall x: Id | x != n :: Some(x) in now <==> Some(x) in was
    ensures Some(n) in now
  {
    forall x: Id | x != n && Some(x) in was ensures Some(x) in now {
      var j :| 0 <= j < |was| && was[j] == Some(x);
      assert now[j] == Some(x);
    }
  }

  lemma SeenAfterSet<V>(l: Loop<V>, k: Key, v: V, more: nat -> nat)
    requires Ok(l) && Find(l.heap, l.cells, k) == |l.cells|
    ensures var m := Set(l, k, v, more);
            && |m.seen| == |l.seen|
            && forall j | 0 <= j < |l.seen| ::
                 m.seen[j] == l.seen[j] || (l.seen[j].None? && m.seen[j] == Some(|l.heap|))
  {
    var hole := LastHole(l.cells);
    if hole < |l.seen| && l.shared { assert l.cells[..|l.seen|][hole] == l.seen[hole]; }
  }

  lemma OpKeeps<V>(l: Loop<V>, i: nat, op: Op<V>, log: Log<V>, more: nat -> nat, start: set<Id>)
    requires Ok(l) && LostOk(l, i + 1, log) && VisitsOk(l, i + 1, log, start)
    ensures LostOk(Do(l, op, more), i + 1, Noted(l, i, op, log))
    ensures VisitsOk(Do(l, op, more), i + 1, Noted(l, i, op, log), start)
  {
    hide Ok, LostOk, VisitsOk, Delete, Set, Noted;
    match op
    case DoSet(k, v) => SetKeeps(l, i, i + 1, k, v, log, more, start);
    case DoDelete(k) => DeleteKeeps(l, i, i + 1, k, log, start);
  }

  lemma SetKeeps<V>(l: Loop<V>, i: nat, from: nat, k: Key, v: V, log: Log<V>, more: nat -> nat, start: set<Id>)
    requires Ok(l) && LostOk(l, from, log) && VisitsOk(l, from, log, start) && from == i + 1
    ensures LostOk(Set(l, k, v, more), from, Noted(l, i, DoSet(k, v), log))
    ensures VisitsOk(Set(l, k, v, more), from, Noted(l, i, DoSet(k, v), log), start)
  {
    hide Ok, Ahead, IsVisited, Set, Unreached;
    SetAdds(l, from, k, v, more);
    NothingUnreached(l, i, DoSet(k, v));
    var m := Set(l, k, v, more);
    assert Noted(l, i, DoSet(k, v), log) == log;
    forall id: Id | Ahead(m, from, id) ensures Some(id) !in m.cells <==> id in log.lost {
      if id < |l.heap| { assert Ahead(l, from, id); }
    }
  }

  lemma NothingUnreached<V>(l: Loop<V>, i: nat, op: Op<V>)
    requires op.DoSet?
    ensures Unreached(l, i, op) == {}
  { }

  lemma DeleteKeeps<V>(l: Loop<V>, i: nat, from: nat, k: Key, log: Log<V>, start: set<Id>)
    requires Ok(l) && LostOk(l, from, log) && VisitsOk(l, from, log, start) && from == i + 1
    ensures LostOk(Delete(l, k), from, Noted(l, i, DoDelete(k), log))
    ensures VisitsOk(Delete(l, k), from, Noted(l, i, DoDelete(k), log), start)
  {
    if Find(l.heap, l.cells, k) < |l.cells| {
      DeleteRemoves(l, i, from, k);
      InHeap(l, k);
      hide Ok, Ahead, IsVisited, Delete, Unreached;
    }
  }

  lemma InHeap<V>(l: Loop<V>, k: Key)
    requires Ok(l) && Find(l.heap, l.cells, k) < |l.cells|
    ensures l.cells[Find(l.heap, l.cells, k)].value < |l.heap|
  { }

  lemma {:induction false} AllOpsKeep<V>(l: Loop<V>, i: nat, ops: seq<Op<V>>, log: Log<V>, more: nat -> nat,
                                         start: set<Id>)
    requires Ok(l) && LostOk(l, i + 1, log) && VisitsOk(l, i + 1, log, start)
    ensures var (m, after) := DoAll(l, i, ops, log, more); LostOk(m, i + 1, after) && VisitsOk(m, i + 1, after, start)
    decreases |ops|
  {
    hide Ok, LostOk, VisitsOk, Do, Noted;
    if ops != [] {
      DoKeeps(l, ops[0], more);
      OpKeeps(l, i, ops[0], log, more, start);
      AllOpsKeep(Do(l, ops[0], more), i, ops[1..], Noted(l, i, ops[0], log), more, start);
    }
  }

  lemma {:induction false} LoopKeeps<V>(l: Loop<V>, i: nat, f: seq<Visit<V>> -> seq<Op<V>>, log: Log<V>,
                                        more: nat -> nat, start: set<Id>)
    requires Ok(l) && i <= |l.seen| && LostOk(l, i, log) && VisitsOk(l, i, log, start)
    ensures var end := Iterated(l, i, f, log, more);
            && end.dead == end.lost
            && (forall id: Id | id in end.dead :: IsVisited(end, id))
            && (forall id: Id | id in end.dropped :: !IsVisited(end, id))
            && (forall j, k | 0 <= j < k < |end.visits| :: end.visits[j].id != end.visits[k].id)
            && (forall id: Id | id in start :: IsVisited(end, id) || id in end.dropped)
    decreases |l.seen| - i
  {
    if i == |l.seen| {
      assert forall id: Id :: !Ahead(l, i, id);
      hide Ahead;
      assert log.dead == log.lost;
    } else if l.seen[i].None? {
      PassHole(l, i, log, start);
      hide Ok, LostOk, VisitsOk;
      LoopKeeps(l, i + 1, f, log, more, start);
    } else {
      CalledKeeps(l, i, log, start);
      var called := Called(l, l.seen[i].value, log);
      hide Ok, LostOk, VisitsOk, Called;
      AllKeep(l, i, f(called.visits), called, more);
      AllOpsKeep(l, i, f(called.visits), called, more, start);
      var (m, after) := DoAll(l, i, f(called.visits), called, more);
      LoopKeeps(m, i + 1, f, after, more, start);
    }
  }

  lemma PassHole<V>(l: Loop<V>, i: nat, log: Log<V>, start: set<Id>)
    requires i < |l.seen| && l.seen[i].None? && LostOk(l, i, log) && VisitsOk(l, i, log, start)
    ensures LostOk(l, i + 1, log) && VisitsOk(l, i + 1, log, start)
  {
    assert forall x: Id :: Ahead(l, i, x) <==> Ahead(l, i + 1, x);
    hide Ahead, IsVisited;
  }

  // ----- what Iterate promises -----

  /** A loop that begins: it ranges over the bucket's array. */
  predicate Begins<V>(l: Loop<V>) {
    Ok(l) && l.shared && l.seen == l.cells
  }

  function EmptyLog<V>(): Log<V> {
    Log([], {}, {}, {})
  }

  ghost function Calls<V>(l: Loop<V>, f: seq<Visit<V>> -> seq<Op<V>>, more: nat -> nat): Log<V>
    requires Begins(l)
  {
    Iterated(l, 0, f, EmptyLog(), more)
  }

  /** Whatever f does: it is called for no entry twice, and for every entry of the bucket but those that were
      deleted, before the loop reached them, while the bucket kept its array. */
  lemma CalledForEach<V>(l: Loop<V>, f: seq<Visit<V>> -> seq<Op<V>>, more: nat -> nat)
    requires Begins(l)
    ensures var log := Calls(l, f, more);
            && (forall id: Id | Some(id) in l.cells :: IsVisited(log, id) <==> id !in log.dropped)
            && (forall j, k | 0 <= j < k < |log.visits| :: log.visits[j].id != log.visits[k].id)
  {
    LoopRuns(l, f, more);
    hide Iterated;
  }

  lemma LoopRuns<V>(l: Loop<V>, f: seq<Visit<V>> -> seq<Op<V>>, more: nat -> nat)
    requires Begins(l)
    ensures var end := Calls(l, f, more);
            && end.dead == end.lost
            && (forall id: Id | id in end.dead :: IsVisited(end, id))
            && (forall id: Id | id in end.dropped :: !IsVisited(end, id))
            && (forall j, k | 0 <= j < k < |end.visits| :: end.visits[j].id != end.visits[k].id)
            && (forall id: Id | Some(id) in l.cells :: IsVisited(end, id) || id in end.dropped)
  {
    var start := set id: Id | 0 <= id < |l.heap| && Some(id) in l.cells;
    forall id: Id | Some(id) in l.cells ensures id in start && Ahead(l, 0, id) {
      var j :| 0 <= j < |l.cells| && l.cells[j] == Some(id);
      assert l.seen[j] == Some(id);
    }
    assert forall id: Id | Ahead(l, 0, id) :: Some(id) in l.cells;
    hide Ahead, Ok, Iterated;
    LoopKeeps(l, 0, f, EmptyLog(), more, start);
  }

  /** f is called for exactly those deleted entries that were deleted, before the loop reached them, after an
      insertion had moved the bucket to a larger array.  So the promise that it is not called for a deleted
      entry holds if and only if there is none. */
  lemma DeletedAreSkipped<V>(l: Loop<V>, f: seq<Visit<V>> -> seq<Op<V>>, more: nat -> nat)
    requires Begins(l)
    ensures var log := Calls(l, f, more);
            && log.dead == log.lost
            && ((forall id: Id | id in log.dropped + log.lost :: !IsVisited(log, id)) <==> log.lost == {})
  {
    LoopRuns(l, f, more);
    hide Iterated, IsVisited;
    var log := Calls(l, f, more);
    if log.lost != {} {
      var id :| id in log.lost;
      assert id in log.dropped + log.lost;
    }
  }

  function Get<V>(l: Loop<V>, k: Key): Option<V> {
    var i := Find(l.heap, l.cells, k);
    if i < |l.cells| then Some(l.heap[l.cells[i].value].value) else None
  }

  /** Any other call of f is with a key of the map and its value. */
  lemma CalledWithItsValue<V>(l: Loop<V>, id: Id)
    requires Ok(l) && Some(id) in l.cells
    ensures id < |l.heap| && Get(l, l.heap[id].key) == Some(l.heap[id].value)
  {
    var j :| 0 <= j < |l.cells| && l.cells[j] == Some(id);
    assert Matches(l.heap, l.cells[j], l.heap[id].key);
    var i := Find(l.heap, l.cells, l.heap[id].key);
    assert i == j;
  }

  lemma IdKnown<V>(l: Loop<V>, i: nat)
    requires Ok(l) && i < |l.seen| && l.seen[i].Some?
    ensures l.seen[i].value < |l.heap|
  { }

  // ----- insertions that fit -----

  function Holes(cells: Cells): nat {
    if cells == [] then 0 else Holes(cells[..|cells| - 1]) + if cells[|cells| - 1].None? then 1 else 0
  }

  /** How many new keys the bucket takes before it moves. */
  function Room<V>(l: Loop<V>): int {
    Holes(l.cells) + l.cap - |l.cells|
  }

  /** How many of the operations put in a key that is not in the map. */
  function NewKeys<V>(l: Loop<V>, ops: seq<Op<V>>, more: nat -> nat): nat
    decreases |ops|
  {
    if ops == [] then 0
    else
      (if ops[0].DoSet? && Find(l.heap, l.cells, ops[0].key) == |l.cells| then 1 else 0)
      + NewKeys(Do(l, ops[0], more), ops[1..], more)
  }

  /** The same over all calls of f from cell i on. */
  ghost function Insertions<V>(l: Loop<V>, i: nat, f: seq<Visit<V>> -> seq<Op<V>>, log: Log<V>, more: nat -> nat): nat
    requires Ok(l) && i <= |l.seen|
    decreases |l.seen| - i
  {
    if i == |l.seen| then 0
    else if l.seen[i].None? then Insertions(l, i + 1, f, log, more)
    else
      var called := Called(l, l.seen[i].value, log);
      AllKeep(l, i, f(called.visits), called, more);
      var (m, after) := DoAll(l, i, f(called.visits), called, more);
      NewKeys(l, f(called.visits), more) + Insertions(m, i + 1, f, after, more)
  }

  lemma {:induction false} HolesAfter(cells: Cells, i: nat, c: Option<Id>)
    requires i < |cells|
    ensures Holes(cells[i := c]) == Holes(cells) + (if c.None? then 1 else 0) - (if cells[i].None? then 1 else 0)
    decreases |cells|
  {
    var n := |cells| - 1;
    if i < n {
      HolesAfter(cells[..n], i, c);
      assert cells[i := c][..n] == cells[..n][i := c];
    } else {
      assert cells[i := c][..n] == cells[..n];
    }
  }

  lemma HolesAppend(cells: Cells, c: Option<Id>)
    ensures Holes(cells + [c]) == Holes(cells) + if c.None? then 1 else 0
  {
    assert (cells + [c])[..|cells|] == cells;
  }

  lemma {:induction false} NoHoles(cells: Cells)
    ensures Holes(cells) == 0 <==> LastHole(cells) == |cells|
    decreases |cells|
  {
    if cells != [] { NoHoles(cells[..|cells| - 1]); }
  }

  /** An operation takes room only for a new key, and moves the bucket only when there is none. */
  lemma OpRoom<V>(l: Loop<V>, op: Op<V>, more: nat -> nat)
    requires Ok(l) && l.shared
    requires Room(l) > 0 || op.DoDelete? || Find(l.heap, l.cells, op.key) < |l.cells|
    ensures var m := Do(l, op, more);
            m.shared && Room(m) >= Room(l) - if op.DoSet? && Find(l.heap, l.cells, op.key) == |l.cells| then 1 else 0
  {
    var i := Find(l.heap, l.cells, op.key);
    if op.DoDelete? {
      if i < |l.cells| { HolesAfter(l.cells, i, None); }
    } else if i == |l.cells| {
      var hole := LastHole(l.cells);
      NoHoles(l.cells);
      if hole < |l.cells| { HolesAfter(l.cells, hole, Some(|l.heap|)); } else { HolesAppend(l.cells, Some(|l.heap|)); }
    }
  }

  lemma {:induction false} OpsFit<V>(l: Loop<V>, i: nat, ops: seq<Op<V>>, log: Log<V>, more: nat -> nat)
    requires Ok(l) && l.shared && NewKeys(l, ops, more) <= Room(l)
    ensures var (m, after) := DoAll(l, i, ops, log, more);
            m.shared && after.lost == log.lost && Room(m) >= Room(l) - NewKeys(l, ops, more)
    decreases |ops|
  {
    if ops != [] {
      hide Ok, Do, Room;
      OpRoom(l, ops[0], more);
      DoKeeps(l, ops[0], more);
      OpsFit(Do(l, ops[0], more), i, ops[1..], Noted(l, i, ops[0], log), more);
    }
  }

  lemma {:induction false} FittingLosesNothing<V>(l: Loop<V>, i: nat, f: seq<Visit<V>> -> seq<Op<V>>, log: Log<V>,
                                                  more: nat -> nat)
    requires Ok(l) && i <= |l.seen| && l.shared && log.lost == {} && Insertions(l, i, f, log, more) <= Room(l)
    ensures Iterated(l, i, f, log, more).lost == {}
    decreases |l.seen| - i
  {
    hide Ok, DoAll, Room, NewKeys;
    if i < |l.seen| {
      if l.seen[i].None? {
        FittingLosesNothing(l, i + 1, f, log, more);
      } else {
        IdKnown(l, i);
        var called := Called(l, l.seen[i].value, log);
        AllKeep(l, i, f(called.visits), called, more);
        OpsFit(l, i, f(called.visits), called, more);
        var (m, after) := DoAll(l, i, f(called.visits), called, more);
        FittingLosesNothing(m, i + 1, f, after, more);
      }
    }
  }

  /** The promise holds for every f whose insertions of new keys fit into the holes and the room of the array. */
  lemma FittingIsSafe<V>(l: Loop<V>, f: seq<Visit<V>> -> seq<Op<V>>, more: nat -> nat)
    requires Begins(l) && Insertions(l, 0, f, EmptyLog(), more) <= Room(l)
    ensures var log := Calls(l, f, more); forall id: Id | id in log.dropped + log.lost :: !IsVisited(log, id)
  {
    hide Iterated, Insertions, IsVisited, Ok;
    FittingLosesNothing(l, 0, f, EmptyLog(), more);
    DeletedAreSkipped(l, f, more);
  }

  // ----- a bound that can be read off the callback -----

  function Sets<V>(ops: seq<Op<V>>): nat {
    if ops == [] then 0 else (if ops[0].DoSet? then 1 else 0) + Sets(ops[1..])
  }

  /** How often f sets a key in the calls of a history, from the first one on. */
  function AllSets<V>(f: seq<Visit<V>> -> seq<Op<V>>, calls: seq<Visit<V>>): nat {
    if calls == [] then 0 else AllSets(f, calls[..|calls| - 1]) + Sets(f(calls))
  }

  lemma {:induction false} NewAreSets<V>(l: Loop<V>, ops: seq<Op<V>>, more: nat -> nat)
    ensures NewKeys(l, ops, more) <= Sets(ops)
    decreases |ops|
  {
    if ops != [] { NewAreSets(Do(l, ops[0], more), ops[1..], more); }
  }

  lemma {:induction false} InsertionsAreSets<V>(l: Loop<V>, i: nat, f: seq<Visit<V>> -> seq<Op<V>>, log: Log<V>,
                                                more: nat -> nat)
    requires Ok(l) && i <= |l.seen|
    ensures AllSets(f, log.visits) + Insertions(l, i, f, log, more)
            <= AllSets(f, Iterated(l, i, f, log, more).visits)
    decreases |l.seen| - i
  {
    hide Ok, DoAll, NewKeys, Sets;
    if i < |l.seen| {
      if l.seen[i].None? {
        InsertionsAreSets(l, i + 1, f, log, more);
      } else {
        IdKnown(l, i);
        var called := Called(l, l.seen[i].value, log);
        assert called.visits[..|log.visits|] == log.visits;
        AllKeep(l, i, f(called.visits), called, more);
        NewAreSets(l, f(called.visits), more);
        var (m, after) := DoAll(l, i, f(called.visits), called, more);
        InsertionsAreSets(m, i + 1, f, after, more);
      }
    }
  }

  /** In particular for every f that never sets more keys than there is room for, whatever it is called for. */
  lemma FewSetsAreSafe<V(!new)>(l: Loop<V>, f: seq<Visit<V>> -> seq<Op<V>>, more: nat -> nat)
    requires Begins(l) && forall calls :: AllSets(f, calls) <= Room(l)
    ensures var log := Calls(l, f, more); forall id: Id | id in log.dropped + log.lost :: !IsVisited(log, id)
  {
    hide Iterated, Insertions, AllSets, IsVisited, Ok;
    InsertionsAreSets(l, 0, f, EmptyLog(), more);
    FittingIsSafe(l, f, more);
  }

  ghost predicate OnlyDeletes<V(!new)>(f: seq<Visit<V>> -> seq<Op<V>>) {
    forall calls, op | op in f(calls) :: op.DoDelete?
  }

  lemma {:induction false} NoSets<V>(ops: seq<Op<V>>)
    requires forall op | op in ops :: op.DoDelete?
    ensures Sets(ops) == 0
  {
    if ops != [] {
      assert ops[0] in ops;
      NoSets(ops[1..]);
    }
  }

  lemma {:induction false} NeverSets<V(!new)>(f: seq<Visit<V>> -> seq<Op<V>>, calls: seq<Visit<V>>)
    requires OnlyDeletes(f)
    ensures AllSets(f, calls) == 0
    decreases |calls|
  {
    if calls != [] {
      NeverSets(f, calls[..|calls| - 1]);
      NoSets(f(calls));
    }
  }

  /** And for every f that only deletes. */
  lemma DeletingIsSafe<V(!new)>(l: Loop<V>, f: seq<Visit<V>> -> seq<Op<V>>, more: nat -> nat)
    requires Begins(l) && OnlyDeletes(f)
    ensures var log := Calls(l, f, more); forall id: Id | id in log.dropped + log.lost :: !IsVisited(log, id)
  {
    hide Calls, AllSets, IsVisited;
    forall calls ensures AllSets(f, calls) <= Room(l) { NeverSets(f, calls); }
    FewSetsAreSafe(l, f, more);
  }

  // ----- a deleted entry that f is called for -----

  /** The entries of keys 1 and 2, in an array without room for a third. */
  function Full(): Loop<int> {
    Loop([Entry(1, 10), Entry(2, 20)], [Some(0), Some(1)], [Some(0), Some(1)], 2, true)
  }

  function One(n: nat): nat { 1 }

  /** On its first call f sets key 3 and deletes key 2. */
  function SetsThenDeletes(calls: seq<Visit<int>>): seq<Op<int>> {
    if |calls| == 1 then [DoSet(3, 30), DoDelete(2)] else []
  }

  /** The bucket with key 3, in a new array, and then without key 2. */
  function Moved(): Loop<int> {
    Loop([Entry(1, 10), Entry(2, 20), Entry(3, 30)], [Some(0), Some(1)], [Some(0), Some(1), Some(2)], 4, false)
  }

  function Gone(): Loop<int> {
    Moved().(cells := [Some(0), None, Some(2)])
  }

  lemma SettingMoves()
    ensures Set(Full(), 3, 30, One) == Moved()
  { }

  lemma DeletingIsNotSeen()
    ensures Delete(Moved(), 2) == Gone() && Unreached(Moved(), 0, DoDelete(2)) == {1}
  {
    assert Find(Moved().heap, Moved().cells, 2) == 1;
  }

  lemma FirstCall(log: Log<int>)
    requires |log.visits| == 1
    ensures DoAll(Full(), 0, SetsThenDeletes(log.visits), log, One) == (Gone(), log.(lost := log.lost + {1}))
  {
    hide Set, Delete, Unreached;
    SettingMoves();
    DeletingIsNotSeen();
    NothingUnreached(Full(), 0, DoSet(3, 30));
    var ops := [DoSet(3, 30), DoDelete(2)];
    assert ops[1..] == [DoDelete(2)] && ops[1..][1..] == [];
    assert Noted(Full(), 0, DoSet(3, 30), log) == log;
    assert Noted(Moved(), 0, DoDelete(2), log) == log.(lost := log.lost + {1});
    assert DoAll(Moved(), 0, ops[1..], log, One) == DoAll(Gone(), 0, [], log.(lost := log.lost + {1}), One);
  }

  /** f is called for key 2 although it has deleted it. */
  lemma DeletedButCalled()
    ensures Begins(Full())
    ensures Calls(Full(), SetsThenDeletes, One).visits == [Visit(0, 1, 10), Visit(1, 2, 20)]
    ensures Calls(Full(), SetsThenDeletes, One).lost == {1}
  {
    hide DoAll;
    var one := Called(Full(), 0, EmptyLog());
    assert one.visits == [Visit(0, 1, 10)];
    FirstCall(one);
    var after := one.(lost := one.lost + {1});
    var two := Called(Gone(), 1, after);
    assert two.visits == [Visit(0, 1, 10), Visit(1, 2, 20)];
    AllKeep(Full(), 0, SetsThenDeletes(one.visits), one, One);
    NoOperations(Gone(), 1, two);
    assert Iterated(Gone(), 2, SetsThenDeletes, two, One) == two;
    assert Iterated(Gone(), 1, SetsThenDeletes, after, One) == two;
  }

  lemma NoOperations(l: Loop<int>, i: nat, log: Log<int>)
    ensures DoAll(l, i, [], log, One) == (l, log)
  { }

  // ----- the bucket as the map keeps it -----

  class MapBucket<V> {
    var heap: seq<Entry<V>>
    var cells: array<Option<Id>>
    var n: nat

    /** What a loop over the first m cells of array a has to do with. */
    ghost function View(a: array<Option<Id>>, m: nat): Loop<V>
      requires n <= cells.Length && m <= a.Length
      reads this, cells, a
    {
      Loop(heap, a[..m], cells[..n], cells.Length, a == cells)
    }

    constructor (heap: seq<Entry<V>>, cells: array<Option<Id>>, n: nat)
      ensures this.heap == heap && this.cells == cells && this.n == n
    {
      this.heap, this.cells, this.n := heap, cells, n;
    }

    method FindIndex(k: Key) returns (i: nat)
      requires n <= cells.Length
      ensures i == Find(heap, cells[..n], k)
    {
      i := 0;
      while i < n && !Matches(heap, cells[i], k)
        invariant i <= n && forall j | 0 <= j < i :: !Matches(heap, cells[j], k)
      {
        i := i + 1;
      }
    }

    method FindHole() returns (i: nat)
      requires n <= cells.Length
      ensures i == LastHole(cells[..n])
    {
      i := n;
      for j := 0 to n
        invariant if i == n then forall k | 0 <= k < j :: cells[k].Some?
                  else i < j && cells[i].None? && forall k | i < k < j :: cells[k].Some?
      {
        if cells[j].None? { i := j; }
      }
    }

    method DeleteKey(k: Key, ghost a: array<Option<Id>>, ghost m: nat)
      requires n <= cells.Length && m <= a.Length && m <= n
      modifies cells
      ensures View(a, m) == Delete(old(View(a, m)), k)
    {
      var i := FindIndex(k);
      if i < n { cells[i] := None; }
    }

    method SetKey(k: Key, v: V, more: nat -> nat, ghost a: array<Option<Id>>, ghost m: nat)
      requires n <= cells.Length && m <= a.Length && m <= n
      modifies this, cells
      ensures n <= cells.Length && m <= n && (cells == old(cells) || fresh(cells))
      ensures View(a, m) == Set(old(View(a, m)), k, v, more)
    {
      var i := FindIndex(k);
      if i < n {
        heap := heap[cells[i].value := Entry(k, v)];
        return;
      }
      var hole := FindHole();
      heap := heap + [Entry(k, v)];
      if hole < n {
        cells[hole] := Some(|heap| - 1);
      } else {
        Push(Some(|heap| - 1), more);
      }
    }

    /** What f does in one call. */
    method PerformAll(ops: seq<Op<V>>, ghost i: nat, more: nat -> nat, ghost a: array<Option<Id>>, ghost m: nat,
                      ghost log: Log<V>)
      returns (ghost after: Log<V>)
      requires n <= cells.Length && m <= a.Length && m <= n
      modifies this, cells
      ensures n <= cells.Length && m <= n && (cells == old(cells) || fresh(cells))
      ensures (View(a, m), after) == DoAll(old(View(a, m)), i, ops, log, more)
    {
      hide Do, Noted;
      after := log;
      for j := 0 to |ops|
        invariant n <= cells.Length && m <= n && (cells == old(cells) || fresh(cells))
        invariant DoAll(View(a, m), i, ops[j..], after, more) == DoAll(old(View(a, m)), i, ops, log, more)
      {
        assert ops[j..][1..] == ops[j + 1..];
        after := Noted(View(a, m), i, ops[j], after);
        Perform(ops[j], more, a, m);
      }
    }

    method Perform(op: Op<V>, more: nat -> nat, ghost a: array<Option<Id>>, ghost m: nat)
      requires n <= cells.Length && m <= a.Length && m <= n
      modifies this, cells
      ensures n <= cells.Length && m <= n && (cells == old(cells) || fresh(cells))
      ensures View(a, m) == Do(old(View(a, m)), op, more)
    {
      match op
      case DoSet(k, v) => SetKey(k, v, more, a, m);
      case DoDelete(k) => DeleteKey(k, a, m);
    }

    /** Iterate, on this bucket.  `range bucket` evaluates the bucket once. */
    method Iterate(f: seq<Visit<V>> -> seq<Op<V>>, more: nat -> nat) returns (visits: seq<Visit<V>>)
      requires n <= cells.Length && Begins(View(cells, n))
      modifies this, cells
      ensures visits == Calls(old(View(cells, n)), f, more).visits
    {
      hide DoAll;
      var a, m := cells, n;
      visits := [];
      ghost var log: Log<V> := EmptyLog();
      for i := 0 to m
        invariant n <= cells.Length && m <= n && m <= a.Length && a == old(cells) && (cells == a || fresh(cells))
        invariant Ok(View(a, m)) && visits == log.visits
        invariant Iterated(View(a, m), i, f, log, more) == Calls(old(View(cells, n)), f, more)
      {
        if a[i].Some? {
          IdKnown(View(a, m), i);
          var e := heap[a[i].value];
          visits := visits + [Visit(a[i].value, e.key, e.value)];
          ghost var called := Called(View(a, m), a[i].value, log);
          var ops := f(visits);
          AllKeep(View(a, m), i, ops, called, more);
          log := PerformAll(ops, i, more, a, m, called);
        }
      }
    }

    /** append */
    method Push(c: Option<Id>, more: nat -> nat)
      requires n <= cells.Length
      modifies this`cells, this`n, cells
      ensures n == old(n) + 1 <= cells.Length && cells[..n] == old(cells[..n]) + [c]
      ensures if old(n < cells.Length) then cells == old(cells)
              && forall j | 0 <= j < old(n) :: cells[j] == old(cells[j])
              else fresh(cells) && cells.Length == n + more(old(n)) && old(cells)[..] == old(cells[..])
    {
      if n == cells.Length {
        var was := cells[..n];
        cells := new Option<Id>[n + 1 + more(n)](j => if 0 <= j < |was| then was[j] else None);
      }
      cells[n] := c;
      n := n + 1;
    }
  }
}
