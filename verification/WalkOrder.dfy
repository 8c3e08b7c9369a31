/** The order in which a walk records the continues, and the deferred calls that it stores with each return. */
module WalkOrder {
  import opened Analysis
  import opened WalkTree
  import opened WalkRecord

  // ----- the continues -----

  /** The continues of a tree in the order of the source, with the post statements of the loops that are found. */
  function ContinuesIn(t: Tree, stack: Path, loops: Loops): seq<ContinueStmt>
    decreases t, 0
  {
    (if t.kind.Continues? then ContinuesOf(t.kind.target, stack + [t.id], loops) else [])
    + ContinuesInAll(t.children, stack + [t.id], loops)
  }

  function ContinuesInAll(ts: seq<Tree>, stack: Path, loops: Loops): seq<ContinueStmt>
    decreases ts, 1
  {
    if ts == [] then []
    else
      var front := ts[..|ts| - 1];
      ContinuesInAll(front, stack, loops) + ContinuesIn(ts[|ts| - 1], AfterAll(front, stack), loops)
  }

  lemma {:induction false} RecordsOfParts(a: seq<Visit>, b: seq<Visit>, loops: Loops)
    ensures ContinueRecords(a + b, loops) == ContinueRecords(a, loops) + ContinueRecords(b, loops)
    decreases |b|
  {
    hide ContinuesOf, ContinueRecords;
    if b == [] {
      assert a + b == a;
      RecordsOfNone(loops);
    } else {
      var n := |b| - 1;
      RecordsOfParts(a, b[..n], loops);
      assert (a + b)[..|a + b| - 1] == a + b[..n];
      RecordsSnoc(a + b, loops);
      RecordsSnoc(b, loops);
      Regroup(ContinueRecords(a, loops), ContinueRecords(b[..n], loops), RecordsOf(b[n], loops));
    }
  }

  function RecordsOf(v: Visit, loops: Loops): seq<ContinueStmt> {
    if v.AtNode? && v.kind.Continues? then ContinuesOf(v.kind.target, v.path, loops) else []
  }

  lemma RecordsOfNone(loops: Loops)
    ensures ContinueRecords([], loops) == []
  { }

  lemma RecordsSnoc(vs: seq<Visit>, loops: Loops)
    requires vs != []
    ensures ContinueRecords(vs, loops) == ContinueRecords(vs[..|vs| - 1], loops) + RecordsOf(vs[|vs| - 1], loops)
  { }

  lemma Regroup<T>(a: seq<T>, b: seq<T>, c: seq<T>)
    ensures a + (b + c) == a + b + c
  { }

  lemma RecordsOfOne(v: Visit, loops: Loops)
    ensures ContinueRecords([v], loops) == RecordsOf(v, loops)
  {
    RecordsSnoc([v], loops);
    assert [v][..0] == [];
  }

  lemma {:induction false} RecordsOfTree(t: Tree, stack: Path, loops: Loops, inLoop: bool)
    ensures ContinueRecords(Visits(t, stack, loops, inLoop), loops) == ContinuesIn(t, stack, loops)
    decreases t, 0
  {
    hide ContinueRecords, ContinuesOf, VisitsAll, ContinuesInAll;
    var s := stack + [t.id];
    var deep := inLoop || t.id in loops;
    var inside := VisitsAll(t.children, s, loops, deep);
    var here := AtNode(t.kind, if t.kind.CallsLiteral? then AfterAll(t.children, s) else s);
    RecordsOfTrees(t.children, s, loops, deep);
    RecordsOfOne(here, loops);
    RecordsOfParts([here], inside, loops);
    RecordsOfParts(inside, [here], loops);
    var all := NodeVisits(t, stack, loops, deep);
    RecordsOfOne(LoopBegins, loops);
    RecordsOfOne(LoopEnds, loops);
    RecordsOfParts([LoopBegins], all, loops);
    RecordsOfParts([LoopBegins] + all, [LoopEnds], loops);
  }

  lemma {:induction false} RecordsOfTrees(ts: seq<Tree>, stack: Path, loops: Loops, inLoop: bool)
    ensures ContinueRecords(VisitsAll(ts, stack, loops, inLoop), loops) == ContinuesInAll(ts, stack, loops)
    decreases ts, 1
  {
    if ts != [] {
      hide Visits, ContinuesIn;
      var front, last := ts[..|ts| - 1], ts[|ts| - 1];
      RecordsOfTrees(front, stack, loops, inLoop);
      RecordsOfTree(last, AfterAll(front, stack), loops, inLoop);
      var vs := VisitsAll(front, stack, loops, inLoop);
      RecordsOfParts(vs, Visits(last, AfterAll(front, stack), loops, inLoop), loops);
    }
  }

  /** The continues come on record in the order of the source. */
  lemma ContinuesInOrder(r: Record, t: Tree, stack: Path, loops: Loops, inLoop: bool)
    ensures NoteAll(r, Visits(t, stack, loops, inLoop), loops).fi.continueStmts ==
              r.fi.continueStmts + ContinuesIn(t, stack, loops)
  {
    ControlsAre(r, Visits(t, stack, loops, inLoop), loops);
    RecordsOfTree(t, stack, loops, inLoop);
  }

  // ----- the deferred calls -----

  function DefersOf(kind: Kind): seq<Defer> {
    match kind
    case Blocks(d) => Deferred(BlockingDefer, d)
    case CallsNamed(Func(g, interfaceMethod), d) => Deferred(if interfaceMethod then BlockingDefer else InstDefer(g), d)
    case CallsNamed(Var, d) => Deferred(BlockingDefer, d)
    case CallsLiteral(g, d) => Deferred(LitDefer(g), d)
    case _ => []
  }

  /** The deferred calls of a tree, in the order in which they are recorded. */
  function DefersIn(t: Tree): seq<Defer>
    decreases t, 0
  {
    if t.kind.CallsLiteral? then DefersInAll(t.children) + DefersOf(t.kind)
    else DefersOf(t.kind) + DefersInAll(t.children)
  }

  function DefersInAll(ts: seq<Tree>): seq<Defer>
    decreases ts, 1
  {
    if ts == [] then [] else DefersInAll(ts[..|ts| - 1]) + DefersIn(ts[|ts| - 1])
  }

  /** The deferred calls that may run at a return: all of those in the outermost loop around it and the ones before
      that, or, in no loop, the ones before the return. */
  function DefersAt(t: Tree, at: seq<nat>, loops: Loops): seq<Defer>
    requires Has(t, at)
    decreases |at|
  {
    if t.id in loops then DefersIn(t)
    else if at == [] then []
    else (if t.kind.CallsLiteral? then [] else DefersOf(t.kind)) + DefersInAll(t.children[..at[0]])
         + DefersAt(t.children[at[0]], at[1..], loops)
  }

  predicate ReturnAt(t: Tree, at: seq<nat>, stack: Path, loops: Loops, ds: seq<Defer>, s: ReturnStmt) {
    Has(t, at) && NodeAt(t, at).kind.Returns? && s == ReturnStmt(WayTo(t, at, stack), ds + DefersAt(t, at, loops))
  }

  predicate ReturnAmong(ts: seq<Tree>, i: nat, at: seq<nat>, stack: Path, loops: Loops, ds: seq<Defer>, s: ReturnStmt) {
    i < |ts| && ReturnAt(ts[i], at, AfterAll(ts[..i], stack), loops, ds + DefersInAll(ts[..i]), s)
  }

  lemma DefersNoted(r: Record, v: Visit, loops: Loops)
    ensures Note(r, v, loops).fi.deferStmts == r.fi.deferStmts + if v.AtNode? then DefersOf(v.kind) else []
  { }

  lemma {:induction false} DefersAre(r: Record, t: Tree, stack: Path, loops: Loops, inLoop: bool)
    ensures NoteAll(r, Visits(t, stack, loops, inLoop), loops).fi.deferStmts == r.fi.deferStmts + DefersIn(t)
    decreases t, 1
  {
    hide Note, NoteAll;
    var all := NodeVisits(t, stack, loops, inLoop || t.id in loops);
    if t.id in loops && !inLoop {
      var r1 := Note(r, LoopBegins, loops);
      NoteParts(r, [LoopBegins] + all, [LoopEnds], loops);
      NoteParts(r, [LoopBegins], all, loops);
      NoteOne(r, LoopBegins, loops);
      DefersNoted(r, LoopBegins, loops);
      NodeDefersAre(r1, t, stack, loops, true);
      NoteOne(NoteAll(r1, all, loops), LoopEnds, loops);
      DefersNoted(NoteAll(r1, all, loops), LoopEnds, loops);
    } else {
      NodeDefersAre(r, t, stack, loops, inLoop);
    }
  }

  lemma {:induction false} NodeDefersAre(r: Record, t: Tree, stack: Path, loops: Loops, inLoop: bool)
    ensures NoteAll(r, NodeVisits(t, stack, loops, inLoop), loops).fi.deferStmts == r.fi.deferStmts + DefersIn(t)
    decreases t, 0
  {
    hide Note, NoteAll, VisitsAll, DefersInAll, DefersOf;
    var s := stack + [t.id];
    var inside := VisitsAll(t.children, s, loops, inLoop);
    if t.kind.CallsLiteral? {
      var here := AtNode(t.kind, AfterAll(t.children, s));
      NoteParts(r, inside, [here], loops);
      AllDefersAre(r, t.children, s, loops, inLoop);
      NoteOne(NoteAll(r, inside, loops), here, loops);
      DefersNoted(NoteAll(r, inside, loops), here, loops);
    } else {
      var here := AtNode(t.kind, s);
      NoteParts(r, [here], inside, loops);
      NoteOne(r, here, loops);
      DefersNoted(r, here, loops);
      AllDefersAre(Note(r, here, loops), t.children, s, loops, inLoop);
    }
  }

  lemma {:induction false} AllDefersAre(r: Record, ts: seq<Tree>, stack: Path, loops: Loops, inLoop: bool)
    ensures NoteAll(r, VisitsAll(ts, stack, loops, inLoop), loops).fi.deferStmts == r.fi.deferStmts + DefersInAll(ts)
    decreases ts, 2
  {
    hide Note, NoteAll, Visits, DefersIn, AfterAll;
    if ts == [] {
      NothingNoted(r, loops);
    } else {
      var front, last := ts[..|ts| - 1], ts[|ts| - 1];
      var vs := VisitsAll(front, stack, loops, inLoop);
      AllDefersAre(r, front, stack, loops, inLoop);
      NoteParts(r, vs, Visits(last, AfterAll(front, stack), loops, inLoop), loops);
      DefersAre(NoteAll(r, vs, loops), last, AfterAll(front, stack), loops, inLoop);
    }
  }

  // ----- the returns of a loop -----

  /** Inside a loop the visits are all of nodes. */
  lemma {:induction false} OnlyNodes(t: Tree, stack: Path, loops: Loops)
    ensures forall v | v in Visits(t, stack, loops, true) :: v.AtNode?
    decreases t, 0
  {
    OnlyNodesIn(t.children, stack + [t.id], loops);
    hide VisitsAll;
  }

  lemma {:induction false} OnlyNodesIn(ts: seq<Tree>, stack: Path, loops: Loops)
    ensures forall v | v in VisitsAll(ts, stack, loops, true) :: v.AtNode?
    decreases ts, 1
  {
    if ts != [] {
      hide Visits;
      OnlyNodesIn(ts[..|ts| - 1], stack, loops);
      OnlyNodes(ts[|ts| - 1], AfterAll(ts[..|ts| - 1], stack), loops);
    }
  }

  lemma {:induction false} NodesAppend(r: Record, vs: seq<Visit>, loops: Loops)
    requires forall v | v in vs :: v.AtNode?
    ensures var q := NoteAll(r, vs, loops); r.fi.returnStmts <= q.fi.returnStmts && q.loopIndex == r.loopIndex
    decreases |vs|
  {
    if vs != [] {
      hide ContinuesOf;
      NodesAppend(r, vs[..|vs| - 1], loops);
      assert vs[|vs| - 1] in vs;
      assert forall v | v in vs[..|vs| - 1] :: v in vs;
    }
  }

  /** At the end of the loop all of its returns get the deferred calls so far. */
  lemma GivenDefers(was: seq<ReturnStmt>, now: seq<ReturnStmt>, ps: seq<Path>, ds: seq<Defer>, s: ReturnStmt)
    requires was <= now && Paths(now) == Paths(was) + ps
    ensures s in WithDefers(now, |was|, ds) <==> s in was || (s.path in ps && s.deferStmts == ds)
  {
    var q := WithDefers(now, |was|, ds);
    assert |now| == |was| + |ps|;
    forall k | |was| <= k < |now| ensures now[k].path == ps[k - |was|] {
      assert Paths(now)[k] == (Paths(was) + ps)[k];
    }
    assert forall k | 0 <= k < |was| :: q[k] == was[k];
    assert forall k | |was| <= k < |now| :: q[k] == ReturnStmt(ps[k - |was|], ds);
    if s in was {
      var k :| 0 <= k < |was| && was[k] == s;
      assert q[k] == s;
    }
    if s.path in ps && s.deferStmts == ds {
      var k :| 0 <= k < |ps| && ps[k] == s.path;
      assert q[|was| + k] == s;
    }
  }

  lemma LoopReturns(r: Record, t: Tree, stack: Path, loops: Loops, s: ReturnStmt)
    requires t.id in loops
    ensures s in NoteAll(r, Visits(t, stack, loops, false), loops).fi.returnStmts
            <==> s in r.fi.returnStmts || exists at :: ReturnAt(t, at, stack, loops, r.fi.deferStmts, s)
  {
    var all := Visits(t, stack, loops, true);
    var r1 := Note(r, LoopBegins, loops);
    var q := NoteAll(r1, all, loops);
    LoopNoted(r, t, stack, loops);
    OnlyNodes(t, stack, loops);
    NodesAppend(r1, all, loops);
    ControlsAre(r1, all, loops);
    DefersAre(r1, t, stack, loops, true);
    hide NoteAll, Visits, Paths, WithDefers, ReturnPaths;
    GivenDefers(r.fi.returnStmts, q.fi.returnStmts, ReturnPaths(all), q.fi.deferStmts, s);
    PathsOfReturns(t, stack, loops, true, s.path);
    if at :| ReturnsAt(t, at, stack, s.path) && s.deferStmts == q.fi.deferStmts {
      assert ReturnAt(t, at, stack, loops, r.fi.deferStmts, s);
    }
    if at :| ReturnAt(t, at, stack, loops, r.fi.deferStmts, s) { assert ReturnsAt(t, at, stack, s.path); }
  }

  lemma LoopNoted(r: Record, t: Tree, stack: Path, loops: Loops)
    requires t.id in loops
    ensures NoteAll(r, Visits(t, stack, loops, false), loops) ==
              Note(NoteAll(Note(r, LoopBegins, loops), Visits(t, stack, loops, true), loops), LoopEnds, loops)
  {
    hide Note, NoteAll;
    var all := Visits(t, stack, loops, true);
    NoteParts(r, [LoopBegins] + all, [LoopEnds], loops);
    NoteParts(r, [LoopBegins], all, loops);
    NoteOne(r, LoopBegins, loops);
    NoteOne(NoteAll(Note(r, LoopBegins, loops), all, loops), LoopEnds, loops);
  }

  lemma PathsOfReturns(t: Tree, stack: Path, loops: Loops, inLoop: bool, p: Path)
    ensures p in ReturnPaths(Visits(t, stack, loops, inLoop)) <==> exists at :: ReturnsAt(t, at, stack, p)
  {
    ControlsAre(NOTHING, Visits(t, stack, loops, inLoop), loops);
    WalkReturns(NOTHING, t, stack, loops, inLoop, p);
    hide NoteAll, Visits;
  }

  // ----- the returns of a function -----

  /** A walk that begins in no loop records each return with the deferred calls that may run at it, in a loop and
      after it; and no others. */
  lemma {:induction false} WalkReturnDefers(r: Record, t: Tree, stack: Path, loops: Loops, s: ReturnStmt)
    ensures s in NoteAll(r, Visits(t, stack, loops, false), loops).fi.returnStmts
            <==> s in r.fi.returnStmts || exists at :: ReturnAt(t, at, stack, loops, r.fi.deferStmts, s)
    decreases t, 1
  {
    if t.id in loops {
      LoopReturns(r, t, stack, loops, s);
    } else {
      NodeReturns(r, t, stack, loops, s);
    }
  }

  lemma {:induction false} NodeReturns(r: Record, t: Tree, stack: Path, loops: Loops, s: ReturnStmt)
    requires t.id !in loops
    ensures s in NoteAll(r, NodeVisits(t, stack, loops, false), loops).fi.returnStmts
            <==> s in r.fi.returnStmts || exists at :: ReturnAt(t, at, stack, loops, r.fi.deferStmts, s)
    decreases t, 0
  {
    hide NoteAll, VisitsAll, ContinuesOf, DefersInAll;
    var below := stack + [t.id];
    var inside := VisitsAll(t.children, below, loops, false);
    if t.kind.CallsLiteral? {
      var here := AtNode(t.kind, AfterAll(t.children, below));
      NoteParts(r, inside, [here], loops);
      NoteOne(NoteAll(r, inside, loops), here, loops);
      AllReturns(r, t.children, below, loops, s);
      ReturnBelow(t, stack, loops, r.fi.deferStmts, r.fi.deferStmts, s);
    } else {
      var here := AtNode(t.kind, below);
      NoteParts(r, [here], inside, loops);
      NoteOne(r, here, loops);
      var r1 := Note(r, here, loops);
      DefersNoted(r, here, loops);
      AllReturns(r1, t.children, below, loops, s);
      ReturnBelow(t, stack, loops, r.fi.deferStmts, r1.fi.deferStmts, s);
      if t.kind.Returns? { ReturnHere(r, t, stack, loops, s); }
    }
  }

  lemma ReturnHere(r: Record, t: Tree, stack: Path, loops: Loops, s: ReturnStmt)
    requires t.id !in loops && t.kind.Returns?
    ensures s in Note(r, AtNode(t.kind, stack + [t.id]), loops).fi.returnStmts
            <==> s in r.fi.returnStmts || ReturnAt(t, [], stack, loops, r.fi.deferStmts, s)
  {
    assert r.fi.deferStmts + [] == r.fi.deferStmts;
  }

  lemma ReturnBelow(t: Tree, stack: Path, loops: Loops, ds: seq<Defer>, es: seq<Defer>, s: ReturnStmt)
    requires t.id !in loops && es == ds + if t.kind.CallsLiteral? then [] else DefersOf(t.kind)
    ensures (exists at :: ReturnAt(t, at, stack, loops, ds, s))
            <==> ReturnAt(t, [], stack, loops, ds, s)
                 || exists i: nat, at :: ReturnAmong(t.children, i, at, stack + [t.id], loops, es, s)
  {
    var ts := t.children;
    if at :| ReturnAt(t, at, stack, loops, ds, s) && at != [] {
      SameDefers(t, at, loops, ds, es);
      assert ReturnAmong(ts, at[0], at[1..], stack + [t.id], loops, es, s);
    }
    if i: nat, at :| ReturnAmong(ts, i, at, stack + [t.id], loops, es, s) {
      var to := [i] + at;
      assert to[0] == i && to[1..] == at;
      SameDefers(t, to, loops, ds, es);
      assert ReturnAt(t, to, stack, loops, ds, s);
    }
  }

  lemma SameDefers(t: Tree, at: seq<nat>, loops: Loops, ds: seq<Defer>, es: seq<Defer>)
    requires t.id !in loops && at != [] && Has(t, at)
    requires es == ds + if t.kind.CallsLiteral? then [] else DefersOf(t.kind)
    ensures ds + DefersAt(t, at, loops) ==
              es + DefersInAll(t.children[..at[0]]) + DefersAt(t.children[at[0]], at[1..], loops)
  {
    hide DefersInAll, DefersIn, DefersOf;
    var own := if t.kind.CallsLiteral? then [] else DefersOf(t.kind);
    var before, rest := DefersInAll(t.children[..at[0]]), DefersAt(t.children[at[0]], at[1..], loops);
    assert DefersAt(t, at, loops) == own + before + rest;
    Regroup(ds, own + before, rest);
    Regroup(ds, own, before);
  }

  lemma {:induction false} AllReturns(r: Record, ts: seq<Tree>, stack: Path, loops: Loops, s: ReturnStmt)
    ensures s in NoteAll(r, VisitsAll(ts, stack, loops, false), loops).fi.returnStmts
            <==> s in r.fi.returnStmts || exists i: nat, at :: ReturnAmong(ts, i, at, stack, loops, r.fi.deferStmts, s)
    decreases ts, 2
  {
    hide NoteAll, Visits, ReturnAt, ReturnAmong, AfterAll;
    if ts == [] {
      NothingNoted(r, loops);
      NoneAmong(ts, stack, loops, r.fi.deferStmts, s);
    } else {
      var front, last := ts[..|ts| - 1], ts[|ts| - 1];
      var vs := VisitsAll(front, stack, loops, false);
      var r1 := NoteAll(r, vs, loops);
      NoteParts(r, vs, Visits(last, AfterAll(front, stack), loops, false), loops);
      AllReturns(r, front, stack, loops, s);
      AllDefersAre(r, front, stack, loops, false);
      WalkReturnDefers(r1, last, AfterAll(front, stack), loops, s);
      AmongSnoc(ts, stack, loops, r.fi.deferStmts, s);
      var ds := r.fi.deferStmts + DefersInAll(front);
      assert r1.fi.deferStmts == ds;
      assert VisitsAll(ts, stack, loops, false) == vs + Visits(last, AfterAll(front, stack), loops, false);
      assert s in NoteAll(r, VisitsAll(ts, stack, loops, false), loops).fi.returnStmts <==>
               s in r1.fi.returnStmts || exists at :: ReturnAt(last, at, AfterAll(front, stack), loops, ds, s);
      assert s in r1.fi.returnStmts <==>
        s in r.fi.returnStmts || exists i: nat, at :: ReturnAmong(front, i, at, stack, loops, r.fi.deferStmts, s);
    }
  }

  lemma NoneAmong(ts: seq<Tree>, stack: Path, loops: Loops, ds: seq<Defer>, s: ReturnStmt)
    requires ts == []
    ensures forall i: nat, at :: !ReturnAmong(ts, i, at, stack, loops, ds, s)
  { }

  lemma AmongSnoc(ts: seq<Tree>, stack: Path, loops: Loops, ds: seq<Defer>, s: ReturnStmt)
    requires ts != []
    ensures var front, last := ts[..|ts| - 1], ts[|ts| - 1];
            (exists i: nat, at :: ReturnAmong(ts, i, at, stack, loops, ds, s))
            <==> (exists i: nat, at :: ReturnAmong(front, i, at, stack, loops, ds, s))
                 || exists at :: ReturnAt(last, at, AfterAll(front, stack), loops, ds + DefersInAll(front), s)
  {
    hide ReturnAt, ReturnAmong, AfterAll, DefersInAll;
    var front, last := ts[..|ts| - 1], ts[|ts| - 1];
    if i: nat, at :| ReturnAmong(ts, i, at, stack, loops, ds, s) { AmongStep(ts, i, at, stack, loops, ds, s); }
    if i: nat, at :| ReturnAmong(front, i, at, stack, loops, ds, s) { AmongStep(ts, i, at, stack, loops, ds, s); }
    if at :| ReturnAt(last, at, AfterAll(front, stack), loops, ds + DefersInAll(front), s) {
      AmongStep(ts, |front|, at, stack, loops, ds, s);
    }
  }

  lemma AmongStep(ts: seq<Tree>, i: nat, at: seq<nat>, stack: Path, loops: Loops, ds: seq<Defer>, s: ReturnStmt)
    requires ts != []
    ensures var front, last := ts[..|ts| - 1], ts[|ts| - 1];
            && (ReturnAmong(front, i, at, stack, loops, ds, s) ==> ReturnAmong(ts, i, at, stack, loops, ds, s))
            && (i == |front| ==>
                  (ReturnAmong(ts, i, at, stack, loops, ds, s) <==>
                     ReturnAt(last, at, AfterAll(front, stack), loops, ds + DefersInAll(front), s)))
            && (i != |front| ==>
                  (ReturnAmong(ts, i, at, stack, loops, ds, s) ==> ReturnAmong(front, i, at, stack, loops, ds, s)))
  {
    hide ReturnAt, AfterAll, DefersInAll;
    var front := ts[..|ts| - 1];
    assert i < |front| ==> front[i] == ts[i] && front[..i] == ts[..i];
    assert ts[..|front|] == front;
  }
}
