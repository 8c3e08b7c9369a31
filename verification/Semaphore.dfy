/** The semaphores of compiler/natives/src/sync/sync.go.  A goroutine's acquire is one atomic step when
    it need not wait; otherwise it is two, around the receive on its private channel. */
module Semaphore {

  const W := 0x1_0000_0000

  type uint32 = x: int | 0 <= x < W

  type Gid = nat
  type Addr = nat

  datatype Waiter = Waiter(g: Gid, lifo: bool)

  /** What has happened on one semaphore: its first value, the releases and completed acquires, and the
      goroutines that queued up at the back, as they came and as they were woken. */
  datatype History = History(init: nat, released: nat, acquired: nat, arrived: seq<Gid>, woken: seq<Gid>)

  /** The words, semWaiters, semAwoken, and the goroutines that were sent `true` and have not run since. */
  datatype State = State(word: map<Addr, uint32>, waiters: map<Addr, seq<Waiter>>, awoken: map<Addr, uint32>,
                         resuming: map<Gid, Addr>, hist: map<Addr, History>)

  function Add32(x: uint32, y: uint32): uint32 {
    (x + y) % W
  }

  function Sub32(x: uint32, y: uint32): uint32 {
    (x - y) % W
  }

  function Waiters(s: State, a: Addr): seq<Waiter> {
    if a in s.waiters then s.waiters[a] else []
  }

  function Awoken(s: State, a: Addr): uint32 {
    if a in s.awoken then s.awoken[a] else 0
  }

  /** No empty queue and no zero count stays in the maps. */
  function SetWaiters(s: State, a: Addr, w: seq<Waiter>): (t: State)
    ensures t == s.(waiters := t.waiters)
    ensures forall b :: Waiters(t, b) == if b == a then w else Waiters(s, b)
    ensures forall b | b in t.waiters ::
              if b == a then t.waiters[b] != [] else b in s.waiters && t.waiters[b] == s.waiters[b]
  {
    s.(waiters := if w == [] then s.waiters - {a} else s.waiters[a := w])
  }

  function SetAwoken(s: State, a: Addr, n: uint32): (t: State)
    ensures t == s.(awoken := t.awoken)
    ensures forall b :: Awoken(t, b) == if b == a then n else Awoken(s, b)
    ensures forall b | b in t.awoken :: if b == a then t.awoken[b] != 0 else b in s.awoken && t.awoken[b] == s.awoken[b]
  {
    s.(awoken := if n == 0 then s.awoken - {a} else s.awoken[a := n])
  }

  /** `semAwoken[s] += 1`. */
  function RaiseAwoken(s: State, a: Addr): (t: State)
    ensures t == s.(awoken := t.awoken)
    ensures forall b :: Awoken(t, b) == if b == a then Add32(Awoken(s, a), 1) else Awoken(s, b)
  {
    s.(awoken := s.awoken[a := Add32(Awoken(s, a), 1)])
  }

  predicate Known(s: State, a: Addr) {
    a in s.word && a in s.hist
  }

  /** The word goes down and the acquire is complete. */
  function Take(s: State, a: Addr): State
    requires Known(s, a)
  {
    s.(word := s.word[a := Sub32(s.word[a], 1)], hist := s.hist[a := s.hist[a].(acquired := s.hist[a].acquired + 1)])
  }

  /** runtime_SemacquireMutex up to its receive, or to its end. */
  function Acquire(s: State, a: Addr, g: Gid, lifo: bool): State
    requires Known(s, a)
  {
    if Sub32(s.word[a], Awoken(s, a)) == 0 then
      var h := s.hist[a];
      if lifo then SetWaiters(s, a, [Waiter(g, true)] + Waiters(s, a))
      else SetWaiters(s.(hist := s.hist[a := h.(arrived := h.arrived + [g])]), a, Waiters(s, a) + [Waiter(g, false)])
    else Take(s, a)
  }

  /** The rest of it, when the goroutine runs again. */
  function Resume(s: State, g: Gid): State
    requires g in s.resuming && Known(s, s.resuming[g])
  {
    var a := s.resuming[g];
    Take(SetAwoken(s.(resuming := s.resuming - {g}), a, Sub32(Awoken(s, a), 1)), a)
  }

  function Post(s: State, a: Addr): State
    requires Known(s, a)
  {
    s.(word := s.word[a := Add32(s.word[a], 1)], hist := s.hist[a := s.hist[a].(released := s.hist[a].released + 1)])
  }

  /** The first waiter leaves the queue and is sent `true`. */
  function WakeNext(s: State, a: Addr): State
    requires Known(s, a) && Waiters(s, a) != []
  {
    var w := Waiters(s, a);
    var t := RaiseAwoken(SetWaiters(s, a, w[1..]), a);
    t.(resuming := t.resuming[w[0].g := a],
       hist := if w[0].lifo then t.hist else t.hist[a := t.hist[a].(woken := t.hist[a].woken + [w[0].g])])
  }

  /** runtime_Semrelease.  The receiver of `ch <- true` is parked already, so the send does not block. */
  function Release(s: State, a: Addr): State
    requires Known(s, a)
  {
    var s1 := Post(s, a);
    if Waiters(s1, a) == [] then s1 else WakeNext(s1, a)
  }

  // ----- the invariant -----

  function AtBack(w: seq<Waiter>): seq<Gid> {
    if w == [] then [] else (if w[0].lifo then [] else [w[0].g]) + AtBack(w[1..])
  }

  ghost function ResumingOn(s: State, a: Addr): set<Gid> {
    set g | g in s.resuming && s.resuming[g] == a
  }

  ghost predicate Waits(s: State, g: Gid) {
    exists a, i :: 0 <= i < |Waiters(s, a)| && Waiters(s, a)[i].g == g
  }

  ghost predicate SemOk(s: State, a: Addr)
    requires Known(s, a)
  {
    var h := s.hist[a];
    && s.word[a] == h.init + h.released - h.acquired
    && Awoken(s, a) <= s.word[a]
    && (Waiters(s, a) != [] ==> s.word[a] == Awoken(s, a))
    && Awoken(s, a) == |ResumingOn(s, a)|
    && h.arrived == h.woken + AtBack(Waiters(s, a))
  }

  /** One goroutine waits in one place, and not while it is on its way out. */
  ghost predicate Places(s: State) {
    && (forall a, b, i, j | 0 <= i < |Waiters(s, a)| && 0 <= j < |Waiters(s, b)| && (a != b || i != j) ::
          Waiters(s, a)[i].g != Waiters(s, b)[j].g)
    && (forall g | g in s.resuming :: !Waits(s, g))
  }

  ghost predicate Inv(s: State) {
    && s.word.Keys == s.hist.Keys
    && (forall a | a in s.waiters :: a in s.word && s.waiters[a] != [])
    && (forall a | a in s.awoken :: a in s.word && s.awoken[a] != 0)
    && (forall g | g in s.resuming :: s.resuming[g] in s.word)
    && (forall a | a in s.word :: SemOk(s, a))
    && Places(s)
  }

  /** Fresh semaphores: nobody waits. */
  ghost predicate Fresh(s: State) {
    && s.waiters == map[] && s.awoken == map[] && s.resuming == map[] && s.word.Keys == s.hist.Keys
    && (forall a | a in s.word :: s.hist[a] == History(s.word[a], 0, 0, [], []))
  }

  lemma FreshInv(s: State)
    requires Fresh(s)
    ensures Inv(s)
  {
    forall a | a in s.word ensures SemOk(s, a) { assert ResumingOn(s, a) == {}; }
  }

  // ----- the steps keep it -----

  lemma {:induction false} AtBackAppend(w: seq<Waiter>, x: Waiter)
    ensures AtBack(w + [x]) == AtBack(w) + (if x.lifo then [] else [x.g])
  {
    if w == [] {
      assert w + [x] == [x];
    } else {
      AtBackAppend(w[1..], x);
      assert (w + [x])[1..] == w[1..] + [x];
    }
  }

  lemma Sub32Exact(x: uint32, y: uint32)
    requires y <= x
    ensures Sub32(x, y) == x - y
  { }

  lemma Add32Exact(x: uint32, y: uint32)
    requires x + y < W
    ensures Add32(x, y) == x + y
  { }

  /** The parts of the invariant other than what holds at each address. */
  ghost predicate Shape(s: State) {
    && s.word.Keys == s.hist.Keys
    && (forall a | a in s.waiters :: a in s.word && s.waiters[a] != [])
    && (forall a | a in s.awoken :: a in s.word && s.awoken[a] != 0)
    && (forall g | g in s.resuming :: s.resuming[g] in s.word)
  }

  /** A step on a leaves the other semaphores alone. */
  ghost predicate OnlyTouches(s: State, t: State, a: Addr) {
    && t.word.Keys == s.word.Keys
    && (forall b | b in s.word && b in s.hist && b in t.hist && b != a ::
          t.word[b] == s.word[b] && t.hist[b] == s.hist[b] && Waiters(t, b) == Waiters(s, b)
          && Awoken(t, b) == Awoken(s, b)
          && ResumingOn(t, b) == ResumingOn(s, b))
  }

  lemma StepInv(s: State, t: State, a: Addr)
    requires Inv(s) && Shape(t) && OnlyTouches(s, t, a) && a in t.word && SemOk(t, a) && Places(t)
    ensures Inv(t)
  {
    hide Places, Waiters, Awoken, ResumingOn;
    forall b | b in t.word ensures SemOk(t, b) {
      if b != a { assert SemOk(s, b); }
    }
  }

  lemma SamePlaces(s: State, t: State)
    requires Places(s) && t.waiters == s.waiters && forall g | g in t.resuming :: g in s.resuming
    ensures Places(t)
  {
    assert forall b :: Waiters(t, b) == Waiters(s, b);
    hide Waiters;
    forall h | Waits(t, h) ensures Waits(s, h) {
      var b, i :| 0 <= i < |Waiters(t, b)| && Waiters(t, b)[i].g == h;
      assert Waiters(s, b)[i].g == h;
    }
  }

  lemma AcquireTakes(s: State, a: Addr, g: Gid, lifo: bool)
    requires Inv(s) && a in s.word && s.word[a] > Awoken(s, a)
    ensures Acquire(s, a, g, lifo) == Take(s, a) && forall b :: Waiters(Take(s, a), b) == Waiters(s, b)
    ensures Shape(Take(s, a)) && OnlyTouches(s, Take(s, a), a) && SemOk(Take(s, a), a) && Places(Take(s, a))
  {
    hide Places, AtBack, ResumingOn, Sub32, Waits;
    assert SemOk(s, a);
    Sub32Exact(s.word[a], Awoken(s, a));
    Sub32Exact(s.word[a], 1);
    SamePlaces(s, Take(s, a));
    SameResuming(s, Take(s, a));
  }

  lemma SameResuming(s: State, t: State)
    requires t.resuming == s.resuming
    ensures forall b :: ResumingOn(t, b) == ResumingOn(s, b)
  { }

  lemma IsWaiter(s: State, a: Addr, i: nat)
    requires i < |Waiters(s, a)|
    ensures Waits(s, Waiters(s, a)[i].g)
  { }

  lemma QueuedFields(s: State, a: Addr, g: Gid, lifo: bool)
    requires Known(s, a) && s.word[a] == Awoken(s, a)
    ensures var t := Acquire(s, a, g, lifo);
            && t.word == s.word && t.awoken == s.awoken && t.resuming == s.resuming
            && (forall b :: Awoken(t, b) == Awoken(s, b))
            && (forall b :: Waiters(t, b) ==
                  if b != a then Waiters(s, b)
                  else if lifo then [Waiter(g, true)] + Waiters(s, a) else Waiters(s, a) + [Waiter(g, false)])
            && (forall b | b in t.waiters ::
                  if b == a then t.waiters[b] != [] else b in s.waiters && t.waiters[b] == s.waiters[b])
            && t.hist == if lifo then s.hist else s.hist[a := s.hist[a].(arrived := s.hist[a].arrived + [g])]
  {
    Sub32Exact(s.word[a], Awoken(s, a));
  }

  lemma AcquireQueues(s: State, a: Addr, g: Gid, lifo: bool)
    requires Inv(s) && a in s.word && s.word[a] == Awoken(s, a) && !Waits(s, g) && g !in s.resuming
    ensures var t := Acquire(s, a, g, lifo);
            Shape(t) && OnlyTouches(s, t, a) && SemOk(t, a) && Places(t) && Waits(t, g)
            && t.hist[a].acquired == s.hist[a].acquired
  {
    hide Acquire, Places, ResumingOn, Waits, Waiters, Awoken, AtBack;
    assert SemOk(s, a);
    var t := Acquire(s, a, g, lifo);
    AcquirePlaces(s, a, g, lifo);
    QueuedFields(s, a, g, lifo);
    SameResuming(s, t);
    IsWaiter(t, a, if lifo then 0 else |Waiters(s, a)|);
    QueuedHistory(s, t, a, g, lifo);
  }

  lemma QueuedHistory(s: State, t: State, a: Addr, g: Gid, lifo: bool)
    requires Known(s, a) && Known(t, a) && s.hist[a].arrived == s.hist[a].woken + AtBack(Waiters(s, a))
    requires Waiters(t, a) == if lifo then [Waiter(g, true)] + Waiters(s, a) else Waiters(s, a) + [Waiter(g, false)]
    requires t.hist[a] == if lifo then s.hist[a] else s.hist[a].(arrived := s.hist[a].arrived + [g])
    ensures t.hist[a].arrived == t.hist[a].woken + AtBack(Waiters(t, a))
  {
    hide Waiters;
    if lifo {
      assert Waiters(t, a)[1..] == Waiters(s, a);
    } else {
      AtBackAppend(Waiters(s, a), Waiter(g, false));
    }
  }

  lemma AcquireInv(s: State, a: Addr, g: Gid, lifo: bool)
    requires Inv(s) && a in s.word && !Waits(s, g) && g !in s.resuming
    ensures Inv(Acquire(s, a, g, lifo))
    ensures s.word[a] > Awoken(s, a) <==> Acquire(s, a, g, lifo).hist[a].acquired == s.hist[a].acquired + 1
    ensures s.word[a] == Awoken(s, a) <==> Waits(Acquire(s, a, g, lifo), g)
  {
    KnownIn(s, a);
    var t := Acquire(s, a, g, lifo);
    if s.word[a] == Awoken(s, a) {
      hide Inv, Places, Waiters, Awoken, Acquire, Shape, OnlyTouches, SemOk, Waits;
      AcquireQueues(s, a, g, lifo);
      StepInv(s, t, a);
    } else {
      AcquireTakes(s, a, g, lifo);
      hide Inv, Places, Waiters, Awoken, Acquire, Shape, OnlyTouches, SemOk;
      StepInv(s, t, a);
    }
  }

  lemma AcquirePlaces(s: State, a: Addr, g: Gid, lifo: bool)
    requires Places(s) && Known(s, a) && !Waits(s, g) && g !in s.resuming && s.word[a] == Awoken(s, a)
    ensures Places(Acquire(s, a, g, lifo))
  {
    var t := Acquire(s, a, g, lifo);
    forall b, i | 0 <= i < |Waiters(s, b)| ensures Waiters(s, b)[i].g != g { }
    var w := Waiters(s, a);
    assert Waiters(t, a) == if lifo then [Waiter(g, true)] + w else w + [Waiter(g, false)];
    forall b, c, i, j | 0 <= i < |Waiters(t, b)| && 0 <= j < |Waiters(t, c)| && (b != c || i != j)
      ensures Waiters(t, b)[i].g != Waiters(t, c)[j].g
    {
      WasWaiter(s, a, g, lifo, b, i);
      WasWaiter(s, a, g, lifo, c, j);
    }
    forall h | h in t.resuming ensures !Waits(t, h) {
      forall b, i | 0 <= i < |Waiters(t, b)| ensures Waiters(t, b)[i].g != h {
        WasWaiter(s, a, g, lifo, b, i);
      }
    }
  }

  /** A waiter after the acquire is the new one or was there before. */
  lemma WasWaiter(s: State, a: Addr, g: Gid, lifo: bool, b: Addr, i: nat)
    requires Known(s, a) && s.word[a] == Awoken(s, a) && i < |Waiters(Acquire(s, a, g, lifo), b)|
    ensures var x := Waiters(Acquire(s, a, g, lifo), b)[i];
            var k := if b == a && lifo then i - 1 else i;
            if b == a && (if lifo then i == 0 else i == |Waiters(s, a)|) then x.g == g
            else 0 <= k < |Waiters(s, b)| && x == Waiters(s, b)[k]
  { }

  lemma ReleaseFree(s: State, a: Addr)
    requires Inv(s) && a in s.word && s.word[a] < W - 1 && Waiters(s, a) == []
    ensures var t := Release(s, a); Shape(t) && OnlyTouches(s, t, a) && SemOk(t, a) && Places(t)
  {
    hide Places, AtBack, ResumingOn, Add32, Waits, SetWaiters, RaiseAwoken;
    assert SemOk(s, a);
    var t := Release(s, a);
    SamePlaces(s, t);
    Add32Exact(s.word[a], 1);
    SameResuming(s, t);
  }

  lemma WokenFields(s: State, a: Addr)
    requires Known(s, a) && s.word[a] < W - 1 && Awoken(s, a) < W - 1 && Waiters(s, a) != []
    ensures var t := Release(s, a);
            var w := Waiters(s, a);
            var h := s.hist[a].(released := s.hist[a].released + 1);
            && t.word == s.word[a := s.word[a] + 1] && t.resuming == s.resuming[w[0].g := a]
            && (forall b :: Waiters(t, b) == if b == a then w[1..] else Waiters(s, b))
            && (forall b :: Awoken(t, b) == if b == a then Awoken(s, a) + 1 else Awoken(s, b))
            && (forall b | b in t.waiters ::
                  if b == a then t.waiters[b] != [] else b in s.waiters && t.waiters[b] == s.waiters[b])
            && (forall b | b in t.awoken ::
                  if b == a then t.awoken[b] != 0 else b in s.awoken && t.awoken[b] == s.awoken[b])
            && t.hist == s.hist[a := if w[0].lifo then h else h.(woken := h.woken + [w[0].g])]
  {
    Add32Exact(s.word[a], 1);
    Add32Exact(Awoken(s, a), 1);
  }

  lemma ReleaseWakes(s: State, a: Addr)
    requires Inv(s) && a in s.word && s.word[a] < W - 1 && Waiters(s, a) != []
    ensures var t := Release(s, a); Shape(t) && OnlyTouches(s, t, a) && SemOk(t, a) && Places(t)
  {
    hide Release, Places, ResumingOn, Waits, Waiters, Awoken, AtBack, Shape, OnlyTouches;
    KnownIn(s, a);
    assert SemOk(s, a);
    var t := Release(s, a);
    ReleasePlaces(s, a);
    ReleaseTouches(s, a);
    WokenFields(s, a);
    WokenHistory(s.hist[a], t.hist[a], Waiters(s, a));
  }

  lemma ReleaseTouches(s: State, a: Addr)
    requires Inv(s) && a in s.word && s.word[a] < W - 1 && Waiters(s, a) != []
    ensures var t := Release(s, a);
            Shape(t) && OnlyTouches(s, t, a) && |ResumingOn(t, a)| == |ResumingOn(s, a)| + 1
  {
    hide Release, Places, ResumingOn, Waits, Waiters, Awoken, SemOk;
    KnownIn(s, a);
    WokenFields(s, a);
    IsWaiter(s, a, 0);
    NotResuming(s, Waiters(s, a)[0].g);
    ResumingMore(s, Release(s, a), a, Waiters(s, a)[0].g);
  }

  lemma WokenHistory(h: History, k: History, w: seq<Waiter>)
    requires w != [] && h.arrived == h.woken + AtBack(w) && k.arrived == h.arrived
    requires k.woken == if w[0].lifo then h.woken else h.woken + [w[0].g]
    ensures k.arrived == k.woken + AtBack(w[1..])
  {
    hide AtBack;
    AtBackCons(w);
    Regroup(h.woken, w[0].g, AtBack(w[1..]));
  }

  lemma AtBackCons(w: seq<Waiter>)
    requires w != []
    ensures AtBack(w) == if w[0].lifo then AtBack(w[1..]) else [w[0].g] + AtBack(w[1..])
  { }

  lemma Regroup(a: seq<Gid>, x: Gid, b: seq<Gid>)
    ensures a + ([x] + b) == (a + [x]) + b
  { }

  lemma NotResuming(s: State, g: Gid)
    requires Places(s) && Waits(s, g)
    ensures g !in s.resuming
  { }

  lemma ResumingMore(s: State, t: State, a: Addr, g: Gid)
    requires g !in s.resuming && t.resuming == s.resuming[g := a]
    ensures |ResumingOn(t, a)| == |ResumingOn(s, a)| + 1
    ensures forall b | b != a :: ResumingOn(t, b) == ResumingOn(s, b)
  {
    assert ResumingOn(t, a) == ResumingOn(s, a) + {g};
  }

  lemma ResumingLess(s: State, t: State, a: Addr, g: Gid)
    requires g in s.resuming && s.resuming[g] == a && t.resuming == s.resuming - {g}
    ensures |ResumingOn(t, a)| == |ResumingOn(s, a)| - 1
    ensures forall b | b != a :: ResumingOn(t, b) == ResumingOn(s, b)
  {
    assert ResumingOn(t, a) == ResumingOn(s, a) - {g};
  }

  /** A release keeps the invariant if and only if the word is not full; in any case the first waiter goes. */
  lemma ReleaseInv(s: State, a: Addr)
    requires Inv(s) && a in s.word
    ensures Inv(Release(s, a)) <==> s.word[a] < W - 1
    ensures Waiters(s, a) != [] ==>
              Waiters(s, a)[0].g in Release(s, a).resuming && Waiters(Release(s, a), a) == Waiters(s, a)[1..]
  {
    if Waiters(s, a) != [] { FirstGoes(s, a); }
    if s.word[a] == W - 1 {
      ReleaseFull(s, a);
      return;
    }
    if Waiters(s, a) == [] { ReleaseFree(s, a); } else { ReleaseWakes(s, a); }
    hide Inv, Places, Waiters, Awoken, Release, Shape, OnlyTouches, SemOk;
    StepInv(s, Release(s, a), a);
  }

  /** A full word wraps to zero. */
  lemma ReleaseFull(s: State, a: Addr)
    requires Inv(s) && a in s.word && s.word[a] == W - 1
    ensures !Inv(Release(s, a))
  {
    hide Places, SetWaiters, RaiseAwoken, AtBack, ResumingOn;
    assert SemOk(s, a);
    assert !(Known(Release(s, a), a) && SemOk(Release(s, a), a));
  }

  lemma FirstGoes(s: State, a: Addr)
    requires Known(s, a) && Waiters(s, a) != []
    ensures Waiters(s, a)[0].g in Release(s, a).resuming && Waiters(Release(s, a), a) == Waiters(s, a)[1..]
  { }

  lemma ReleasePlaces(s: State, a: Addr)
    requires Places(s) && Known(s, a) && Waiters(s, a) != []
    ensures Places(Release(s, a))
  {
    var t := Release(s, a);
    var w := Waiters(s, a);
    assert forall b, i | 0 <= i < |Waiters(t, b)| :: Waiters(t, b)[i] == Waiters(s, b)[if b == a then i + 1 else i];
    forall h | h in t.resuming ensures !Waits(t, h) {
      forall b, i | 0 <= i < |Waiters(t, b)| ensures Waiters(t, b)[i].g != h {
        if h == w[0].g {
          assert Waiters(s, b)[if b == a then i + 1 else i].g != Waiters(s, a)[0].g;
        } else {
          assert Waiters(s, b)[if b == a then i + 1 else i].g == h ==> Waits(s, h);
        }
      }
    }
  }

  lemma ResumedFields(s: State, g: Gid)
    requires g in s.resuming && Known(s, s.resuming[g]) && Awoken(s, s.resuming[g]) >= 1 && s.word[s.resuming[g]] >= 1
    ensures var t := Resume(s, g);
            var a := s.resuming[g];
            && t.word == s.word[a := s.word[a] - 1] && t.resuming == s.resuming - {g} && t.waiters == s.waiters
            && (forall b :: Waiters(t, b) == Waiters(s, b))
            && (forall b :: Awoken(t, b) == if b == a then Awoken(s, a) - 1 else Awoken(s, b))
            && (forall b | b in t.awoken ::
                  if b == a then t.awoken[b] != 0 else b in s.awoken && t.awoken[b] == s.awoken[b])
            && t.hist == s.hist[a := s.hist[a].(acquired := s.hist[a].acquired + 1)]
  {
    var a := s.resuming[g];
    Sub32Exact(Awoken(s, a), 1);
    Sub32Exact(s.word[a], 1);
  }

  lemma ResumeTakes(s: State, g: Gid)
    requires Inv(s) && g in s.resuming
    ensures Known(s, s.resuming[g]) && s.word[s.resuming[g]] > 0 && Awoken(s, s.resuming[g]) > 0
    ensures var t := Resume(s, g); var a := s.resuming[g]; Shape(t) && OnlyTouches(s, t, a) && SemOk(t, a) && Places(t)
  {
    hide Places, Waiters, Awoken, Resume, AtBack;
    var a := s.resuming[g];
    assert SemOk(s, a);
    assert g in ResumingOn(s, a);
    var t := Resume(s, g);
    ResumedFields(s, g);
    SamePlaces(s, t);
    ResumingLess(s, t, a, g);
    hide ResumingOn;
  }

  lemma ResumeInv(s: State, g: Gid)
    requires Inv(s) && g in s.resuming
    ensures Known(s, s.resuming[g]) && s.word[s.resuming[g]] > 0
    ensures Inv(Resume(s, g))
  {
    ResumeTakes(s, g);
    hide Inv, Places, Waiters, Awoken, Resume, Shape, OnlyTouches, SemOk;
    StepInv(s, Resume(s, g), s.resuming[g]);
  }

  // ----- runs -----

  datatype Step = DoAcquire(a: Addr, g: Gid, lifo: bool) | DoResume(g: Gid) | DoRelease(a: Addr)

  /** A goroutine is in one place at a time, and the word does not overflow. */
  ghost predicate Enabled(s: State, st: Step) {
    match st
    case DoAcquire(a, g, _) => a in s.word && a in s.hist && !Waits(s, g) && g !in s.resuming
    case DoResume(g) => g in s.resuming && Known(s, s.resuming[g])
    case DoRelease(a) => a in s.word && a in s.hist && s.word[a] < W - 1
  }

  ghost function Do(s: State, st: Step): State
    requires Enabled(s, st)
  {
    match st
    case DoAcquire(a, g, lifo) => Acquire(s, a, g, lifo)
    case DoResume(g) => Resume(s, g)
    case DoRelease(a) => Release(s, a)
  }

  ghost predicate Run(s: State, steps: seq<Step>, t: State)
    decreases |steps|
  {
    if steps == [] then s == t else Enabled(s, steps[0]) && Run(Do(s, steps[0]), steps[1..], t)
  }

  lemma {:induction false} RunInv(s: State, steps: seq<Step>, t: State)
    requires Inv(s) && Run(s, steps, t)
    ensures Inv(t)
    decreases |steps|
  {
    hide Inv, Acquire, Release, Resume;
    if steps != [] {
      match steps[0] {
        case DoAcquire(a, g, lifo) => AcquireInv(s, a, g, lifo);
        case DoResume(g) => ResumeInv(s, g);
        case DoRelease(a) => ReleaseInv(s, a);
      }
      RunInv(Do(s, steps[0]), steps[1..], t);
    }
  }

  /** In every reachable state: the word is its first value plus the releases minus the completed
      acquires; every woken waiter has a permit reserved; while somebody waits no permit is free, so a
      newcomer cannot take one; the goroutines that queued at the back are woken in the order they came. */
  lemma SemaphoreAlways(s: State, steps: seq<Step>, t: State, a: Addr)
    requires Fresh(s) && Run(s, steps, t) && a in t.word
    ensures Known(t, a)
    ensures t.word[a] == t.hist[a].init + t.hist[a].released - t.hist[a].acquired
    ensures |ResumingOn(t, a)| <= t.word[a]
    ensures Waiters(t, a) != [] ==> t.word[a] == |ResumingOn(t, a)|
    ensures t.hist[a].woken <= t.hist[a].arrived
    ensures t.hist[a].arrived == t.hist[a].woken + AtBack(Waiters(t, a))
  {
    FreshInv(s);
    RunInv(s, steps, t);
    assert SemOk(t, a);
  }

  /** A release on a full word wraps to zero, and the permits are gone. */
  lemma ReleaseOverflows(s: State, a: Addr)
    requires Inv(s) && a in s.word
    ensures Release(s, a).word[a] == s.hist[a].init + s.hist[a].released + 1 - s.hist[a].acquired
            <==> s.word[a] < W - 1
  {
    hide Places, SetWaiters, RaiseAwoken, AtBack, ResumingOn;
    assert SemOk(s, a);
  }

  /** The largest count, released once more: no permit is left. */
  lemma ReleaseOfFullWord()
    ensures var s := State(map[0 := W - 1], map[], map[], map[], map[0 := History(W - 1, 0, 0, [], [])]);
            Fresh(s) && Release(s, 0).word[0] == 0 && !Inv(Release(s, 0))
  {
    var s := State(map[0 := W - 1], map[], map[], map[], map[0 := History(W - 1, 0, 0, [], [])]);
    FreshInv(s);
    ReleaseInv(s, 0);
    hide Inv;
  }

  // ----- the maps as the package keeps them -----

  class Semaphores {
    var word: map<Addr, uint32>
    var semWaiters: map<Addr, seq<Waiter>>
    var semAwoken: map<Addr, uint32>
    ghost var resuming: map<Gid, Addr>
    ghost var hist: map<Addr, History>

    ghost function Contents(): State
      reads this
    {
      State(word, semWaiters, semAwoken, resuming, hist)
    }

    constructor (word: map<Addr, uint32>)
      ensures Fresh(Contents()) && this.word == word
    {
      this.word, semWaiters, semAwoken, resuming := word, map[], map[], map[];
      hist := map a | a in word :: History(word[a], 0, 0, [], []);
    }

    /** runtime_SemacquireMutex; `waits` says that it is now at its receive. */
    method SemacquireMutex(a: Addr, g: Gid, lifo: bool) returns (waits: bool)
      requires Inv(Contents()) && a in word && !Waits(Contents(), g) && g !in resuming
      modifies this
      ensures Known(old(Contents()), a) && Contents() == Acquire(old(Contents()), a, g, lifo) && Inv(Contents())
      ensures waits <==> Waits(Contents(), g)
    {
      AcquireInv(Contents(), a, g, lifo);
      assert Known(Contents(), a) && Awoken(Contents(), a) <= word[a] by { assert SemOk(Contents(), a); }
      hide Inv, Waits;
      var awoken := if a in semAwoken then semAwoken[a] else 0;
      if Sub32(word[a], awoken) == 0 {
        Sub32Exact(word[a], awoken);
        hide Sub32;
        Enqueue(a, g, lifo);
        return true;
      }
      Sub32Exact(word[a], awoken);
      hide Sub32;
      Decrement(a);
      return false;
    }

    /** A new waiter at the front or at the back. */
    method Enqueue(a: Addr, g: Gid, lifo: bool)
      requires Known(Contents(), a) && word[a] == Awoken(Contents(), a)
      modifies this`semWaiters, this`hist
      ensures Contents() == Acquire(old(Contents()), a, g, lifo)
    {
      var w := if a in semWaiters then semWaiters[a] else [];
      if lifo {
        semWaiters := semWaiters[a := [Waiter(g, true)] + w];
      } else {
        semWaiters := semWaiters[a := w + [Waiter(g, false)]];
        hist := hist[a := hist[a].(arrived := hist[a].arrived + [g])];
      }
    }

    method Decrement(a: Addr)
      requires Known(Contents(), a)
      modifies this`word, this`hist
      ensures Contents() == Take(old(Contents()), a)
    {
      word := word[a := Sub32(word[a], 1)];
      hist := hist[a := hist[a].(acquired := hist[a].acquired + 1)];
    }

    /** What follows the receive. */
    method Received(g: Gid, a: Addr)
      requires Inv(Contents()) && g in resuming && resuming[g] == a
      modifies this
      ensures Known(old(Contents()), a) && Contents() == Resume(old(Contents()), g) && Inv(Contents())
    {
      ResumeInv(Contents(), g);
      HasAwoken(Contents(), g);
      hide Inv, Sub32;
      resuming := resuming - {g};
      LowerAwoken(a);
      hide SetAwoken, Awoken, Take;
      Decrement(a);
    }

    method LowerAwoken(a: Addr)
      requires a in semAwoken
      modifies this`semAwoken
      ensures Contents() == SetAwoken(old(Contents()), a, Sub32(Awoken(old(Contents()), a), 1))
    {
      semAwoken := semAwoken[a := Sub32(semAwoken[a], 1)];
      if semAwoken[a] == 0 { semAwoken := semAwoken - {a}; }
      assert semAwoken == SetAwoken(old(Contents()), a, Sub32(Awoken(old(Contents()), a), 1)).awoken;
    }

    method Semrelease(a: Addr)
      requires Inv(Contents()) && a in word
      modifies this
      ensures Known(old(Contents()), a) && Contents() == Release(old(Contents()), a)
      ensures Inv(Contents()) <==> old(word[a]) < W - 1
    {
      ReleaseInv(Contents(), a);
      KnownIn(Contents(), a);
      hide Inv, WakeNext;
      Increment(a);
      hide Post;
      var w := if a in semWaiters then semWaiters[a] else [];
      if |w| == 0 { return; }
      WakeFirst(a, w);
    }

    method Increment(a: Addr)
      requires Known(Contents(), a)
      modifies this`word, this`hist
      ensures Contents() == Post(old(Contents()), a)
    {
      word := word[a := Add32(word[a], 1)];
      hist := hist[a := hist[a].(released := hist[a].released + 1)];
    }

    /** The waiter at the front leaves the queue and is sent `true`. */
    method WakeFirst(a: Addr, w: seq<Waiter>)
      requires Known(Contents(), a) && w == Waiters(Contents(), a) && w != []
      modifies this`semWaiters, this`semAwoken, this`resuming, this`hist
      ensures Contents() == WakeNext(old(Contents()), a)
    {
      var ch := w[0];
      var rest := w[1..];
      semWaiters := semWaiters[a := rest];
      if |rest| == 0 { semWaiters := semWaiters - {a}; }
      assert semWaiters == SetWaiters(old(Contents()), a, rest).waiters;
      hide SetWaiters;
      semAwoken := semAwoken[a := Add32(if a in semAwoken then semAwoken[a] else 0, 1)];
      resuming := resuming[ch.g := a];
      if !ch.lifo { hist := hist[a := hist[a].(woken := hist[a].woken + [ch.g])]; }
    }
  }

  lemma KnownIn(s: State, a: Addr)
    requires Inv(s) && a in s.word
    ensures Known(s, a) && Awoken(s, a) <= s.word[a]
  {
    hide Places, Waiters, Awoken;
    assert SemOk(s, a);
  }

  lemma HasAwoken(s: State, g: Gid)
    requires Inv(s) && g in s.resuming
    ensures s.resuming[g] in s.awoken && Known(s, s.resuming[g])
  {
    hide Places;
    assert SemOk(s, s.resuming[g]);
    assert g in ResumingOn(s, s.resuming[g]);
  }
}
