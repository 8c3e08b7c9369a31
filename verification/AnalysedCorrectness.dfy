/** From the walk of every function, over the propagation, to the compiled program. */
module AnalysedCorrectness {
  import A = Analysis
  import opened GoSource
  import opened Emitter
  import opened WalkTree
  import opened WalkRecord
  import opened AnalysedPrograms
  import C = CompilerCorrectness

  /** A function before it is walked, with the parents of its nodes. */
  datatype Body = Body(root: Tree, parent: map<A.Node, A.Node>, loops: Loops)

  ghost predicate Unique(root: Tree) {
    forall a, b | Has(root, a) && Has(root, b) && NodeAt(root, a).id == NodeAt(root, b).id :: a == b
  }

  ghost predicate NoJumps(root: Tree) {
    forall at | Has(root, at) :: !NodeAt(root, at).kind.Jumps?
  }

  /** What FuncVisitor.Walk ensures of a function of a program with n functions. */
  ghost predicate Walked(b: Body, n: nat, fi: A.FuncInfo) {
    && TreeOk(b.root, n, b.parent, b.loops, false) && Unique(b.root) && NoJumps(b.root)
    && fi == NoteAll(NOTHING, Visits(b.root, [], b.loops, false), b.loops).fi
    && A.RootPaths(b.parent, fi) && A.Closed(b.parent, fi)
  }

  /** What Analysis.PropagateAnalysis ensures. */
  ghost predicate Propagated(was: seq<A.FuncInfo>, mid: seq<A.FuncInfo>, now: seq<A.FuncInfo>) {
    && A.Propagated(was, mid) && A.SameBlocking(mid, now) && A.SameCalls(was, mid)
    && forall f | 0 <= f < |mid| :: now[f] == A.ControlPass(mid, mid[f])
  }

  function MayBlock(now: seq<A.FuncInfo>): set<A.Fn> {
    set g | 0 <= g < |now| && A.IsBlocking(now[g])
  }

  lemma SameSize(was: seq<A.FuncInfo>, mid: seq<A.FuncInfo>, now: seq<A.FuncInfo>)
    requires Propagated(was, mid, now)
    ensures |was| == |mid| == |now|
  { }

  // ----- marks -----

  lemma OnItsWay(t: Tree, at: seq<nat>, stack: A.Path)
    requires Has(t, at)
    ensures NodeAt(t, at).id in WayTo(t, at, stack)
    decreases |at|
  {
    if at != [] { OnItsWay(t.children[at[0]], at[1..], AfterAll(t.children[..at[0]], stack + [t.id])); }
  }

  lemma FlattenedIsBlocking(b: Body, was: seq<A.FuncInfo>, mid: seq<A.FuncInfo>, now: seq<A.FuncInfo>, f: A.Fn)
    requires Propagated(was, mid, now) && f < |was| && Walked(b, |was|, was[f])
    ensures now[f].flattened == now[f].blocking
  {
    forall n ensures n in was[f].flattened <==> n in was[f].blocking {
      WalkMarks(NOTHING, b.root, [], b.loops, false, n);
      forall at ensures FlattenedBy(b.root, at, [], n) <==> MarkedBy(b.root, at, [], n) { }
    }
    A.ControlPassIs(mid, mid[f]);
  }

  lemma RoundsStay(b: Body, was: seq<A.FuncInfo>, mid: seq<A.FuncInfo>, now: seq<A.FuncInfo>, f: A.Fn)
    requires Propagated(was, mid, now) && f < |was|
    ensures mid[f].blocking <= now[f].blocking
  {
    A.ControlPassIs(mid, mid[f]);
  }

  lemma {:induction false} Edge(t: Tree, n: nat, parent: map<A.Node, A.Node>, loops: Loops, inLoop: bool, at: seq<nat>,
                                i: nat)
    requires TreeOk(t, n, parent, loops, inLoop) && Has(t, at) && i < |NodeAt(t, at).children|
    ensures var c := NodeAt(t, at).children[i]; c.id in parent && parent[c.id] == NodeAt(t, at).id
    decreases |at|
  {
    if at != [] { Edge(t.children[at[0]], n, parent, loops, inLoop || t.id in loops, at[1..], i); }
  }

  lemma ClosedIsUp(b: Body, n: nat, marks: set<A.Node>)
    requires TreeOk(b.root, n, b.parent, b.loops, false) && A.AncestorClosed(b.parent, marks)
    ensures Up(b.root, marks)
  {
    forall at, i | Has(b.root, at) && 0 <= i < |NodeAt(b.root, at).children|
      ensures NodeAt(b.root, at).children[i].id in marks ==> NodeAt(b.root, at).id in marks
    {
      Edge(b.root, n, b.parent, b.loops, false, at, i);
    }
  }

  lemma MarksGoUp(b: Body, was: seq<A.FuncInfo>, mid: seq<A.FuncInfo>, now: seq<A.FuncInfo>, f: A.Fn)
    requires Propagated(was, mid, now) && f < |was| && Walked(b, |was|, was[f])
    ensures Up(b.root, mid[f].blocking) && Up(b.root, now[f].blocking)
  {
    A.RoundsClosed(was, mid, f, b.parent);
    A.AncestorsMarked(was, mid, now, f, b.parent);
    ClosedIsUp(b, |was|, mid[f].blocking);
    ClosedIsUp(b, |was|, now[f].blocking);
  }

  lemma BlockingNode(b: Body, was: seq<A.FuncInfo>, mid: seq<A.FuncInfo>, now: seq<A.FuncInfo>, f: A.Fn, at: seq<nat>)
    requires Propagated(was, mid, now) && f < |was| && Walked(b, |was|, was[f])
    requires Has(b.root, at) && MarksBlocking(NodeAt(b.root, at).kind)
    ensures NodeAt(b.root, at).id in mid[f].blocking
  {
    var n := NodeAt(b.root, at).id;
    OnItsWay(b.root, at, []);
    assert MarkedBy(b.root, at, [], n);
    WalkMarks(NOTHING, b.root, [], b.loops, false, n);
  }

  lemma CallingNode(b: Body, was: seq<A.FuncInfo>, mid: seq<A.FuncInfo>, now: seq<A.FuncInfo>, f: A.Fn, at: seq<nat>,
                    g: A.Fn)
    requires Propagated(was, mid, now) && f < |was| && Walked(b, |was|, was[f]) && g in MayBlock(now)
    requires Has(b.root, at) && CallsFunc(NodeAt(b.root, at).kind, g)
    ensures NodeAt(b.root, at).id in mid[f].blocking
  {
    var n, p := NodeAt(b.root, at).id, WayTo(b.root, at, []);
    OnItsWay(b.root, at, []);
    assert CalledAt(b.root, at, [], g, p);
    WalkCalls(NOTHING, b.root, [], b.loops, false, g, p);
    var ps := was[f].instCallees[g];
    var i :| 0 <= i < |ps| && ps[i] == p;
    assert n in A.AllNodes(ps) by { assert n in ps[i]; }
    assert A.IsBlocking(mid[g]) && A.MayBlock(was, g);
    assert A.BlockingSite(was, f, n);
  }

  lemma ContinueNode(b: Body, was: seq<A.FuncInfo>, mid: seq<A.FuncInfo>, now: seq<A.FuncInfo>, f: A.Fn, u: Unit,
                     at: seq<nat>)
    requires Propagated(was, mid, now) && f < |was| && Walked(b, |was|, was[f])
    requires u.root == b.root && u.loops == b.loops && u.fi == now[f]
    requires Has(b.root, at) && NodeAt(b.root, at).kind.Continues?
    ensures ContinueDue(u, at, mid[f].blocking)
  {
    var t, way := NodeAt(b.root, at), WayTo(b.root, at, []);
    OnItsWay(b.root, at, []);
    var l := LoopOf(t.kind.target, way, b.loops);
    if l.Some? && PostIn(b.loops, l.value, mid[f].blocking) {
      var c := A.ContinueStmt(b.loops[l.value].post, way);
      assert c in ContinuesOf(t.kind.target, way, b.loops);
      assert ContinuesAt(b.root, at, [], b.loops, c);
      WalkContinues(NOTHING, b.root, [], b.loops, false, c);
      assert A.ContinueBlocks(mid[f], c);
      A.ControlPassIs(mid, mid[f]);
    }
  }

  // ----- a leaf is on no way but its own -----

  ghost predicate LeafOnly(t: Tree, n: A.Node) {
    forall at | Has(t, at) && NodeAt(t, at).id == n :: Popped(NodeAt(t, at).kind) && NodeAt(t, at).children == []
  }

  lemma LeafBelow(t: Tree, n: A.Node, i: nat)
    requires LeafOnly(t, n) && i < |t.children|
    ensures LeafOnly(t.children[i], n) && t.id != n
  {
    assert Has(t, []);
    forall at | Has(t.children[i], at) && NodeAt(t.children[i], at).id == n
      ensures Popped(NodeAt(t.children[i], at).kind) && NodeAt(t.children[i], at).children == []
    {
      assert ([i] + at)[1..] == at;
      assert Has(t, [i] + at) && NodeAt(t, [i] + at) == NodeAt(t.children[i], at);
    }
  }

  lemma {:induction false} LeafNotLeft(t: Tree, n: A.Node)
    requires LeafOnly(t, n)
    ensures n !in After(t, [])
    decreases t, 0
  {
    assert Has(t, []);
    if t.id == n {
      assert After(t, []) == [];
    } else {
      forall i | 0 <= i < |t.children| ensures LeafOnly(t.children[i], n) { LeafBelow(t, n, i); }
      LeafNotLeftIn(t.children, n);
      AfterAllIs(t.children, [] + [t.id]);
    }
  }

  lemma {:induction false} LeafNotLeftIn(ts: seq<Tree>, n: A.Node)
    requires forall i | 0 <= i < |ts| :: LeafOnly(ts[i], n)
    ensures n !in AfterAll(ts, [])
    decreases ts, 1
  {
    if ts != [] {
      var front, last := ts[..|ts| - 1], ts[|ts| - 1];
      LeafNotLeftIn(front, n);
      LeafNotLeft(last, n);
      AfterIs(last, AfterAll(front, []));
    }
  }

  lemma {:induction false} LeafOnWay(t: Tree, at: seq<nat>, stack: A.Path, n: A.Node)
    requires Has(t, at) && LeafOnly(t, n) && n in WayTo(t, at, stack) && n !in stack
    ensures NodeAt(t, at).id == n
    decreases |at|
  {
    if at != [] {
      LeafBelow(t, n, at[0]);
      var front := t.children[..at[0]];
      forall i | 0 <= i < |front| ensures LeafOnly(front[i], n) { LeafBelow(t, n, i); }
      LeafNotLeftIn(front, n);
      AfterAllIs(front, stack + [t.id]);
      LeafOnWay(t.children[at[0]], at[1..], AfterAll(front, stack + [t.id]), n);
    }
  }

  /** A call without children is marked in the rounds or not at all: it is on no way to a return or a continue. */
  lemma CallMarkedInRounds(b: Body, was: seq<A.FuncInfo>, mid: seq<A.FuncInfo>, now: seq<A.FuncInfo>, f: A.Fn,
                           at: seq<nat>)
    requires Propagated(was, mid, now) && f < |was| && Walked(b, |was|, was[f])
    requires Has(b.root, at) && NodeAt(b.root, at).children == []
    requires NodeAt(b.root, at).kind.Blocks? || NodeAt(b.root, at).kind.CallsNamed?
    requires NodeAt(b.root, at).id in now[f].blocking
    ensures NodeAt(b.root, at).id in mid[f].blocking
  {
    var n := NodeAt(b.root, at).id;
    var fi := mid[f];
    assert LeafOnly(b.root, n);
    A.ControlPassIs(mid, fi);
    if r :| r in fi.returnStmts && A.ReturnBlocks(mid, fi, r) && n in r.path {
      WayToReturn(b, was[f], r, n, at);
    }
    var cs := fi.continueStmts;
    var q := A.ReturnPass(mid, fi, fi.returnStmts);
    if A.ContinueMarks(q.blocking, cs, n) {
      var j :| 0 <= j < |cs| && A.MarkedInTurn(q.blocking, cs, j) && n in cs[j].path;
      WayToContinue(b, was[f], cs[j], n, at);
    }
  }

  lemma WayToReturn(b: Body, fi: A.FuncInfo, r: A.ReturnStmt, n: A.Node, at: seq<nat>)
    requires fi == NoteAll(NOTHING, Visits(b.root, [], b.loops, false), b.loops).fi && Unique(b.root)
             && LeafOnly(b.root, n)
    requires r in fi.returnStmts && n in r.path
    requires Has(b.root, at) && NodeAt(b.root, at).id == n
    ensures NodeAt(b.root, at).kind.Returns?
  {
    var i :| 0 <= i < |fi.returnStmts| && fi.returnStmts[i] == r;
    assert Paths(fi.returnStmts)[i] == r.path;
    WalkReturns(NOTHING, b.root, [], b.loops, false, r.path);
    var to :| ReturnsAt(b.root, to, [], r.path);
    LeafOnWay(b.root, to, [], n);
  }

  lemma WayToContinue(b: Body, fi: A.FuncInfo, c: A.ContinueStmt, n: A.Node, at: seq<nat>)
    requires fi == NoteAll(NOTHING, Visits(b.root, [], b.loops, false), b.loops).fi && Unique(b.root)
             && LeafOnly(b.root, n)
    requires c in fi.continueStmts && n in c.path
    requires Has(b.root, at) && NodeAt(b.root, at).id == n
    ensures NodeAt(b.root, at).kind.Continues?
  {
    WalkContinues(NOTHING, b.root, [], b.loops, false, c);
    var to :| ContinuesAt(b.root, to, [], b.loops, c);
    LeafOnWay(b.root, to, [], n);
  }

  // ----- the program -----

  lemma AnalysisFinishes(b: Body, was: seq<A.FuncInfo>, mid: seq<A.FuncInfo>, now: seq<A.FuncInfo>, f: A.Fn,
                         names: Names)
    requires Propagated(was, mid, now) && f < |was| && Walked(b, |was|, was[f])
    ensures Finished(Unit(b.root, b.loops, names, now[f]), mid[f].blocking, MayBlock(now))
  {
    hide Propagated, Walked, Up, ContinueDue;
    SameSize(was, mid, now);
    var u := Unit(b.root, b.loops, names, now[f]);
    FlattenedIsBlocking(b, was, mid, now, f);
    RoundsStay(b, was, mid, now, f);
    MarksGoUp(b, was, mid, now, f);
    forall at | Has(b.root, at)
      ensures var t := NodeAt(b.root, at);
              && (t.kind == Blocks(false) ==> t.id in mid[f].blocking)
              && (t.kind.CallsNamed? && t.kind.callee.Func? && t.kind.callee.g in MayBlock(now)
                  ==> t.id in mid[f].blocking)
              && (t.children == [] && (t.kind.Blocks? || t.kind.CallsNamed?) && t.id in now[f].blocking
                  ==> t.id in mid[f].blocking)
              && (t.kind.Continues? ==> ContinueDue(u, at, mid[f].blocking))
    {
      var t := NodeAt(b.root, at);
      if MarksBlocking(t.kind) {
        BlockingNode(b, was, mid, now, f, at);
      } else if t.kind.CallsNamed? && t.kind.callee.Func? && t.kind.callee.g in MayBlock(now) {
        CallingNode(b, was, mid, now, f, at, t.kind.callee.g);
      } else if t.kind.Continues? {
        ContinueNode(b, was, mid, now, f, u, at);
      } else if t.children == [] && t.kind.CallsNamed? && t.id in now[f].blocking {
        CallMarkedInRounds(b, was, mid, now, f, at);
      }
    }
  }

  /** The functions of a program, walked and analysed: each statement has the marks of its node for flags. */
  ghost predicate AnalysedProgram(P: Prog, names: Names, bodies: seq<Body>, was: seq<A.FuncInfo>, mid: seq<A.FuncInfo>,
                                  now: seq<A.FuncInfo>) {
    && Propagated(was, mid, now) && P.Keys == names.Keys && |bodies| == |was|
    && forall f | f in P ::
         && names[f] < |was|
         && var b := bodies[names[f]];
            && Walked(b, |was|, was[names[f]]) && TypedAll(P[f].body, TOP_SCOPE)
            && ShowsBody(Unit(b.root, b.loops, names, now[names[f]]), b.root, P[f].body, map[])
  }

  /** When every continue without a label was recorded with its own loop, the program is one that the
      translation handles: calls that may block are marked, flattening is closed under ancestors, and the
      continues to a blocking post statement are flattened. */
  lemma AnalysisGivesOk(P: Prog, names: Names, bodies: seq<Body>, was: seq<A.FuncInfo>, mid: seq<A.FuncInfo>,
                        now: seq<A.FuncInfo>)
    requires AnalysedProgram(P, names, bodies, was, mid, now)
    requires forall f | f in P :: OwnLoops(bodies[names[f]].root, bodies[names[f]].loops)
    ensures OkProg(P)
  {
    hide Propagated, Walked;
    SameSize(was, mid, now);
    forall f | f in P ensures HasFlatList(P[f].body) ==> names[f] in MayBlock(now) {
      var g := names[f];
      var u := Unit(bodies[g].root, bodies[g].loops, names, now[g]);
      AnalysisFinishes(bodies[g], was, mid, now, g, names);
      if HasFlatList(P[f].body) {
        FlatListIsMarked(u, mid[g].blocking, MayBlock(now), [], 0, P[f].body, map[]);
        assert A.IsBlocking(now[g]);
      }
    }
    forall f | f in P ensures OkList(P, P[f].body, TOP_SCOPE) {
      var g := names[f];
      var u := Unit(bodies[g].root, bodies[g].loops, names, now[g]);
      AnalysisFinishes(bodies[g], was, mid, now, g, names);
      ListIsOk(P, u, mid[g].blocking, MayBlock(now), [], 0, P[f].body, TOP_SCOPE, map[]);
    }
  }

  /** So the compiled program ends as its source does. */
  lemma AnalysedProgramEndsWithItsSource(P: Prog, names: Names, bodies: seq<Body>, was: seq<A.FuncInfo>,
                                         mid: seq<A.FuncInfo>, now: seq<A.FuncInfo>,
                                         O: Oracle, f: Name, args: seq<int>, w: World, v: int, w': World)
    requires AnalysedProgram(P, names, bodies, was, mid, now)
    requires forall h | h in P :: OwnLoops(bodies[names[h]].root, bodies[names[h]].loops)
    ensures C.SourceEnds(P, O, f, args, w, v, w') <==> C.GoroutineEnds(P, O, f, args, w, v, w')
  {
    AnalysisGivesOk(P, names, bodies, was, mid, now);
    C.EndsTogether(P, O, f, args, w, v, w');
  }
}
