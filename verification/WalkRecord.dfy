/** What a walk puts on record: the nodes that are visited, in order, and the effect of each of them. */
module WalkRecord {
  import opened Analysis
  import opened WalkTree

  /** A node with the visitor's stack, and the bounds of a loop that is in no other. */
  datatype Visit = AtNode(kind: Kind, path: Path) | LoopBegins | LoopEnds

  /** What the visitor of a function knows: its FuncInfo, and loopReturnIndex. */
  datatype Record = Record(fi: FuncInfo, loopIndex: int)

  const NOTHING := Record(FuncInfo({}, {}, map[], map[], [], [], [], false), -1)

  /** The visits of a walk.  A call of a literal is put on record after its children, any other node before. */
  function Visits(t: Tree, stack: Path, loops: Loops, inLoop: bool): seq<Visit>
    decreases t, 1
  {
    var all := NodeVisits(t, stack, loops, inLoop || t.id in loops);
    if t.id in loops && !inLoop then [LoopBegins] + all + [LoopEnds] else all
  }

  function NodeVisits(t: Tree, stack: Path, loops: Loops, inLoop: bool): seq<Visit>
    decreases t, 0
  {
    var s := stack + [t.id];
    var inside := VisitsAll(t.children, s, loops, inLoop);
    if t.kind.CallsLiteral? then inside + [AtNode(t.kind, AfterAll(t.children, s))] else [AtNode(t.kind, s)] + inside
  }

  function VisitsAll(ts: seq<Tree>, stack: Path, loops: Loops, inLoop: bool): seq<Visit>
    decreases ts, 1
  {
    if ts == [] then []
    else
      var front := ts[..|ts| - 1];
      VisitsAll(front, stack, loops, inLoop) + Visits(ts[|ts| - 1], AfterAll(front, stack), loops, inLoop)
  }

  // ----- the effect of a visit -----

  function Deferred(d: Defer, deferredCall: bool): seq<Defer> {
    if deferredCall then [d] else []
  }

  function Blocked(fi: FuncInfo, path: Path, deferredCall: bool): FuncInfo {
    Mark(fi, Nodes(path)).(deferStmts := fi.deferStmts + Deferred(BlockingDefer, deferredCall))
  }

  function PathsOf(fi: FuncInfo, g: Fn): seq<Path> {
    if g in fi.instCallees then fi.instCallees[g] else []
  }

  /** The loop of a continue: the one that its label names, or the one that FindLoopStmt finds. */
  function LoopOf(target: Option<Node>, path: Path, loops: Loops): Option<Node> {
    if target.Some? then target else LastLoop(path, loops)
  }

  /** A range loop has no post statement, and its continues are not recorded. */
  function ContinuesOf(target: Option<Node>, path: Path, loops: Loops): seq<ContinueStmt> {
    var l := LoopOf(target, path, loops);
    if l.Some? && l.value in loops && loops[l.value].ForLoop? then [ContinueStmt(loops[l.value].post, path)] else []
  }

  function NoteNode(fi: FuncInfo, kind: Kind, path: Path, loops: Loops): FuncInfo {
    match kind
    case Blocks(d) => Blocked(fi, path, d)
    case CallsNamed(Func(g, interfaceMethod), d) =>
      if interfaceMethod then Blocked(fi, path, d)
      else fi.(instCallees := fi.instCallees[g := PathsOf(fi, g) + [path]],
               deferStmts := fi.deferStmts + Deferred(InstDefer(g), d))
    case CallsNamed(Var, d) => Blocked(fi, path, d)
    case CallsLiteral(g, d) =>
      fi.(litCallees := fi.litCallees[g := path], deferStmts := fi.deferStmts + Deferred(LitDefer(g), d))
    case Jumps => fi.(flattened := fi.flattened + Nodes(path), gotoLabel := true)
    case Continues(target) => fi.(continueStmts := fi.continueStmts + ContinuesOf(target, path, loops))
    case Returns => fi.(returnStmts := fi.returnStmts + [ReturnStmt(path, fi.deferStmts)])
    case _ => fi
  }

  /** After a top-level loop its returns have every deferred call of the loop. */
  function WithDefers(rs: seq<ReturnStmt>, i: int, ds: seq<Defer>): (q: seq<ReturnStmt>)
    ensures |q| == |rs| && forall k | 0 <= k < |rs| :: q[k].path == rs[k].path
  {
    seq(|rs|, k requires 0 <= k < |rs| => if k < i then rs[k] else rs[k].(deferStmts := ds))
  }

  function Note(r: Record, v: Visit, loops: Loops): Record {
    match v
    case AtNode(kind, path) => r.(fi := NoteNode(r.fi, kind, path, loops))
    case LoopBegins => r.(loopIndex := |r.fi.returnStmts|)
    case LoopEnds => Record(r.fi.(returnStmts := WithDefers(r.fi.returnStmts, r.loopIndex, r.fi.deferStmts)), -1)
  }

  function NoteAll(r: Record, vs: seq<Visit>, loops: Loops): Record {
    if vs == [] then r else Note(NoteAll(r, vs[..|vs| - 1], loops), vs[|vs| - 1], loops)
  }

  lemma AllButLast(ts: seq<Tree>, i: nat, stack: Path, loops: Loops, inLoop: bool)
    requires i < |ts|
    ensures AfterAll(ts[..i + 1], stack) == After(ts[i], AfterAll(ts[..i], stack))
    ensures VisitsAll(ts[..i + 1], stack, loops, inLoop) ==
              VisitsAll(ts[..i], stack, loops, inLoop) + Visits(ts[i], AfterAll(ts[..i], stack), loops, inLoop)
  {
    hide Visits, After;
    assert ts[..i + 1][..i] == ts[..i];
  }

  lemma NoneYet(ts: seq<Tree>, stack: Path, loops: Loops, inLoop: bool)
    ensures AfterAll(ts[..0], stack) == stack && VisitsAll(ts[..0], stack, loops, inLoop) == []
  { }

  lemma NothingNoted(r: Record, loops: Loops)
    ensures NoteAll(r, [], loops) == r
  { }

  lemma {:induction false} NoteParts(r: Record, a: seq<Visit>, b: seq<Visit>, loops: Loops)
    ensures NoteAll(r, a + b, loops) == NoteAll(NoteAll(r, a, loops), b, loops)
    decreases |b|
  {
    if b == [] {
      assert a + b == a;
    } else {
      NoteParts(r, a, b[..|b| - 1], loops);
      assert (a + b)[..|a + b| - 1] == a + b[..|b| - 1];
    }
  }

  lemma NoteOne(r: Record, v: Visit, loops: Loops)
    ensures NoteAll(r, [v], loops) == Note(r, v, loops)
  {
    assert [v][..0] == [];
    assert NoteAll(r, [], loops) == r;
  }

  /** A node that may block by itself: it is a channel operation or the like, or the call of something that is not
      known or of a method of an interface. */
  predicate MarksBlocking(kind: Kind) {
    kind.Blocks? || (kind.CallsNamed? && (kind.callee.Var? || (kind.callee.Func? && kind.callee.interfaceMethod)))
  }

  /** All that one node does to the record, field by field. */
  lemma NodeRecords(fi: FuncInfo, kind: Kind, path: Path, loops: Loops)
    ensures var t := NoteNode(fi, kind, path, loops);
            var named, unknown := kind.CallsNamed? && kind.callee.Func?, kind.CallsNamed? && kind.callee.Var?;
            var blocks := kind.Blocks? || unknown || (named && kind.callee.interfaceMethod);
            var calls := named && !kind.callee.interfaceMethod;
            && (forall n :: n in t.blocking <==> n in fi.blocking || (blocks && n in path))
            && (forall n :: n in t.flattened <==> n in fi.flattened || ((blocks || kind.Jumps?) && n in path))
            && t.gotoLabel == (fi.gotoLabel || kind.Jumps?)
            && t.instCallees == (if !calls then fi.instCallees
                                 else if kind.callee.g in fi.instCallees then
                                   fi.instCallees[kind.callee.g := fi.instCallees[kind.callee.g] + [path]]
                                 else fi.instCallees[kind.callee.g := [path]])
            && t.litCallees == (if kind.CallsLiteral? then fi.litCallees[kind.g := path] else fi.litCallees)
            && t.deferStmts == fi.deferStmts + (if blocks && kind.deferredCall then [BlockingDefer]
                                                else if calls && kind.deferredCall then [InstDefer(kind.callee.g)]
                                                else if kind.CallsLiteral? && kind.deferredCall then [LitDefer(kind.g)]
                                                else [])
            && t.returnStmts == fi.returnStmts + (if kind.Returns? then [ReturnStmt(path, fi.deferStmts)] else [])
            && t.continueStmts == fi.continueStmts + (if kind.Continues? then ContinuesOf(kind.target, path, loops)
                                                      else [])
  {
    hide ContinuesOf;
    assert [] + [path] == [path];
  }

  // ----- what is on record afterwards -----

  predicate MarksFlattened(kind: Kind) {
    MarksBlocking(kind) || kind.Jumps?
  }

  predicate CallsFunc(kind: Kind, g: Fn) {
    kind.CallsNamed? && kind.callee == Func(g, false)
  }

  /** The ways to the calls of g, in order. */
  function CallPaths(vs: seq<Visit>, g: Fn): seq<Path> {
    if vs == [] then []
    else
      var v := vs[|vs| - 1];
      CallPaths(vs[..|vs| - 1], g) + if v.AtNode? && CallsFunc(v.kind, g) then [v.path] else []
  }

  function ReturnPaths(vs: seq<Visit>): seq<Path> {
    if vs == [] then []
    else
      var v := vs[|vs| - 1];
      ReturnPaths(vs[..|vs| - 1]) + if v.AtNode? && v.kind.Returns? then [v.path] else []
  }

  function ContinueRecords(vs: seq<Visit>, loops: Loops): seq<ContinueStmt> {
    if vs == [] then []
    else
      var v := vs[|vs| - 1];
      ContinueRecords(vs[..|vs| - 1], loops)
      + if v.AtNode? && v.kind.Continues? then ContinuesOf(v.kind.target, v.path, loops) else []
  }

  predicate VisitMarks(v: Visit, n: Node) {
    v.AtNode? && MarksBlocking(v.kind) && n in v.path
  }

  predicate VisitFlattens(v: Visit, n: Node) {
    v.AtNode? && MarksFlattened(v.kind) && n in v.path
  }

  lemma OneMark(r: Record, v: Visit, loops: Loops, n: Node)
    ensures n in Note(r, v, loops).fi.blocking <==> n in r.fi.blocking || VisitMarks(v, n)
    ensures n in Note(r, v, loops).fi.flattened <==> n in r.fi.flattened || VisitFlattens(v, n)
  {
    hide LastLoop, ContinuesOf, WithDefers, PathsOf;
  }

  lemma InSnoc(vs: seq<Visit>)
    requires vs != []
    ensures forall v :: v in vs <==> v in vs[..|vs| - 1] || v == vs[|vs| - 1]
  {
    assert vs == vs[..|vs| - 1] + [vs[|vs| - 1]];
  }

  /** Exactly the nodes on the way to a visit that blocks, or jumps, are marked. */
  lemma {:induction false} MarksAre(r: Record, vs: seq<Visit>, loops: Loops, n: Node)
    ensures n in NoteAll(r, vs, loops).fi.blocking <==> n in r.fi.blocking || exists v | v in vs :: VisitMarks(v, n)
    ensures n in NoteAll(r, vs, loops).fi.flattened <==>
              n in r.fi.flattened || exists v | v in vs :: VisitFlattens(v, n)
    decreases |vs|
  {
    hide Note, VisitMarks, VisitFlattens;
    if vs != [] {
      MarksAre(r, vs[..|vs| - 1], loops, n);
      OneMark(NoteAll(r, vs[..|vs| - 1], loops), vs[|vs| - 1], loops, n);
      InSnoc(vs);
    }
  }

  lemma OneCall(r: Record, v: Visit, loops: Loops, g: Fn)
    ensures PathsOf(Note(r, v, loops).fi, g)
            == PathsOf(r.fi, g) + if v.AtNode? && CallsFunc(v.kind, g) then [v.path] else []
    ensures g in Note(r, v, loops).fi.instCallees <==> g in r.fi.instCallees || (v.AtNode? && CallsFunc(v.kind, g))
  {
    hide LastLoop;
  }

  /** Exactly the calls that were visited are recorded, each with its way, in order; of the calls of a
      literal the last. */
  lemma {:induction false} CallsAre(r: Record, vs: seq<Visit>, loops: Loops, g: Fn)
    ensures var q := NoteAll(r, vs, loops);
            && PathsOf(q.fi, g) == PathsOf(r.fi, g) + CallPaths(vs, g)
            && (g in q.fi.instCallees <==> g in r.fi.instCallees || CallPaths(vs, g) != [])
    decreases |vs|
  {
    hide Note, PathsOf, CallsFunc;
    if vs != [] {
      CallsAre(r, vs[..|vs| - 1], loops, g);
      OneCall(NoteAll(r, vs[..|vs| - 1], loops), vs[|vs| - 1], loops, g);
    }
  }

  predicate CallsLit(v: Visit, g: Fn) {
    v.AtNode? && v.kind.CallsLiteral? && v.kind.g == g
  }

  function LitPath(fi: FuncInfo, g: Fn): Option<Path> {
    if g in fi.litCallees then Some(fi.litCallees[g]) else None
  }

  lemma OneLiteral(r: Record, v: Visit, loops: Loops, g: Fn)
    ensures LitPath(Note(r, v, loops).fi, g) == if CallsLit(v, g) then Some(v.path) else LitPath(r.fi, g)
  {
    hide LastLoop;
  }

  lemma {:induction false} LiteralsAre(r: Record, vs: seq<Visit>, loops: Loops, g: Fn)
    ensures var p := LitPath(NoteAll(r, vs, loops).fi, g);
            if exists v | v in vs :: CallsLit(v, g)
            then p.Some? && exists v | v in vs :: CallsLit(v, g) && v.path == p.value
            else p == LitPath(r.fi, g)
    decreases |vs|
  {
    hide Note, LitPath;
    if vs != [] {
      LiteralsAre(r, vs[..|vs| - 1], loops, g);
      OneLiteral(NoteAll(r, vs[..|vs| - 1], loops), vs[|vs| - 1], loops, g);
      InSnoc(vs);
    }
  }

  /** Exactly the continues and returns that were visited are recorded, in order. */
  lemma {:induction false} ControlsAre(r: Record, vs: seq<Visit>, loops: Loops)
    ensures var q := NoteAll(r, vs, loops);
            && q.fi.continueStmts == r.fi.continueStmts + ContinueRecords(vs, loops)
            && Paths(q.fi.returnStmts) == Paths(r.fi.returnStmts) + ReturnPaths(vs)
    decreases |vs|
  {
    if vs != [] {
      var front, last := vs[..|vs| - 1], vs[|vs| - 1];
      hide Note, ContinuesOf;
      ControlsAre(r, front, loops);
      ControlNoted(NoteAll(r, front, loops), last, loops);
    }
  }

  lemma ControlNoted(p: Record, v: Visit, loops: Loops)
    ensures var q := Note(p, v, loops);
            && q.fi.continueStmts == p.fi.continueStmts
               + (if v.AtNode? && v.kind.Continues? then ContinuesOf(v.kind.target, v.path, loops) else [])
            && Paths(q.fi.returnStmts) == Paths(p.fi.returnStmts)
               + (if v.AtNode? && v.kind.Returns? then [v.path] else [])
  {
    if v.LoopEnds? {
      assert Paths(Note(p, v, loops).fi.returnStmts) == Paths(p.fi.returnStmts);
    } else if v.AtNode? && v.kind.Returns? {
      assert Paths(p.fi.returnStmts + [ReturnStmt(v.path, p.fi.deferStmts)]) == Paths(p.fi.returnStmts) + [v.path];
    }
  }

  function Paths(rs: seq<ReturnStmt>): seq<Path> {
    seq(|rs|, k requires 0 <= k < |rs| => rs[k].path)
  }

  // ----- the visits of a tree are its nodes -----

  /** The stack when the node is put on record. */
  function PathAt(t: Tree, at: seq<nat>, stack: Path): Path
    requires Has(t, at)
  {
    var s := NodeAt(t, at);
    if s.kind.CallsLiteral? then AfterAll(s.children, WayTo(t, at, stack)) else WayTo(t, at, stack)
  }

  predicate IsVisitOf(t: Tree, at: seq<nat>, stack: Path, v: Visit) {
    Has(t, at) && v == AtNode(NodeAt(t, at).kind, PathAt(t, at, stack))
  }

  /** A walk visits each node of the tree, with the stack on the way to it, and nothing else. */
  lemma {:induction false} VisitsAreNodes(t: Tree, stack: Path, loops: Loops, inLoop: bool, v: Visit)
    requires v.AtNode?
    ensures v in Visits(t, stack, loops, inLoop) <==> exists at :: IsVisitOf(t, at, stack, v)
    decreases t, 0
  {
    var s := stack + [t.id];
    var inside := VisitsAll(t.children, s, loops, inLoop || t.id in loops);
    var here := AtNode(t.kind, if t.kind.CallsLiteral? then AfterAll(t.children, s) else s);
    assert v in Visits(t, stack, loops, inLoop) <==> v == here || v in inside;
    assert IsVisitOf(t, [], stack, here);
    VisitsAreNodesIn(t, stack, loops, inLoop || t.id in loops, v);
    if at :| IsVisitOf(t, at, stack, v) && at != [] {
      assert IsBelow(t, at, stack, v);
    }
    if v in inside {
      var at :| IsBelow(t, at, stack, v);
      assert IsVisitOf(t, at, stack, v);
    }
  }

  predicate IsBelow(t: Tree, at: seq<nat>, stack: Path, v: Visit) {
    at != [] && IsVisitOf(t, at, stack, v)
  }

  lemma {:induction false} VisitsAreNodesIn(t: Tree, stack: Path, loops: Loops, inLoop: bool, v: Visit)
    requires v.AtNode?
    ensures v in VisitsAll(t.children, stack + [t.id], loops, inLoop) <==> exists at :: IsBelow(t, at, stack, v)
    decreases t.children, 1
  {
    var s := stack + [t.id];
    var ts := t.children;
    InVisitsAll(ts, s, loops, inLoop, v);
    forall i | 0 <= i < |ts|
      ensures v in Visits(ts[i], AfterAll(ts[..i], s), loops, inLoop)
              <==> exists rest :: IsVisitOf(ts[i], rest, AfterAll(ts[..i], s), v)
    {
      VisitsAreNodes(ts[i], AfterAll(ts[..i], s), loops, inLoop, v);
    }
    if at :| IsBelow(t, at, stack, v) {
      assert IsVisitOf(ts[at[0]], at[1..], AfterAll(ts[..at[0]], s), v);
      assert v in Visits(ts[at[0]], AfterAll(ts[..at[0]], s), loops, inLoop);
    }
    if v in VisitsAll(ts, s, loops, inLoop) {
      var i :| 0 <= i < |ts| && v in Visits(ts[i], AfterAll(ts[..i], s), loops, inLoop);
      var rest :| IsVisitOf(ts[i], rest, AfterAll(ts[..i], s), v);
      var at := [i] + rest;
      assert at[0] == i && at[1..] == rest;
      assert IsBelow(t, at, stack, v);
    }
  }

  lemma {:induction false} InVisitsAll(ts: seq<Tree>, stack: Path, loops: Loops, inLoop: bool, v: Visit)
    ensures v in VisitsAll(ts, stack, loops, inLoop)
            <==> exists i :: 0 <= i < |ts| && v in Visits(ts[i], AfterAll(ts[..i], stack), loops, inLoop)
    decreases |ts|
  {
    hide Visits, AfterAll;
    if ts != [] {
      var n := |ts| - 1;
      var front := ts[..n];
      InVisitsAll(front, stack, loops, inLoop, v);
      assert forall i | 0 <= i < n :: front[i] == ts[i] && front[..i] == ts[..i];
      if i :| 0 <= i < n && v in Visits(front[i], AfterAll(front[..i], stack), loops, inLoop) {
        assert v in Visits(ts[i], AfterAll(ts[..i], stack), loops, inLoop);
      }
    }
  }

  // ----- exactly what a walk marks and records -----

  predicate MarkedBy(t: Tree, at: seq<nat>, stack: Path, n: Node) {
    Has(t, at) && MarksBlocking(NodeAt(t, at).kind) && n in WayTo(t, at, stack)
  }

  predicate FlattenedBy(t: Tree, at: seq<nat>, stack: Path, n: Node) {
    Has(t, at) && MarksFlattened(NodeAt(t, at).kind) && n in WayTo(t, at, stack)
  }

  /** A walk marks exactly the nodes on the way to a node that may block by itself: every ancestor,
      and what is left on the stack.  A goto only flattens. */
  lemma WalkMarks(r: Record, t: Tree, stack: Path, loops: Loops, inLoop: bool, n: Node)
    ensures n in NoteAll(r, Visits(t, stack, loops, inLoop), loops).fi.blocking
            <==> n in r.fi.blocking || exists at :: MarkedBy(t, at, stack, n)
    ensures n in NoteAll(r, Visits(t, stack, loops, inLoop), loops).fi.flattened
            <==> n in r.fi.flattened || exists at :: FlattenedBy(t, at, stack, n)
  {
    var vs := Visits(t, stack, loops, inLoop);
    MarksAre(r, vs, loops, n);
    forall at | FlattenedBy(t, at, stack, n) || MarkedBy(t, at, stack, n)
      ensures AtNode(NodeAt(t, at).kind, WayTo(t, at, stack)) in vs
    {
      var v := AtNode(NodeAt(t, at).kind, PathAt(t, at, stack));
      assert IsVisitOf(t, at, stack, v);
      VisitsAreNodes(t, stack, loops, inLoop, v);
    }
    if at :| MarkedBy(t, at, stack, n) { assert VisitMarks(AtNode(NodeAt(t, at).kind, WayTo(t, at, stack)), n); }
    if at :| FlattenedBy(t, at, stack, n) { assert VisitFlattens(AtNode(NodeAt(t, at).kind, WayTo(t, at, stack)), n); }
    forall v | v in vs && VisitFlattens(v, n)
      ensures exists at :: FlattenedBy(t, at, stack, n) && NodeAt(t, at).kind == v.kind
    {
      VisitsAreNodes(t, stack, loops, inLoop, v);
      var at :| IsVisitOf(t, at, stack, v);
      assert FlattenedBy(t, at, stack, n);
    }
    if v :| v in vs && VisitMarks(v, n) {
      assert VisitFlattens(v, n);
      var at :| FlattenedBy(t, at, stack, n) && NodeAt(t, at).kind == v.kind;
      assert MarkedBy(t, at, stack, n);
    }
  }

  lemma {:induction false} GotosAre(r: Record, vs: seq<Visit>, loops: Loops)
    ensures NoteAll(r, vs, loops).fi.gotoLabel <==> r.fi.gotoLabel || exists v :: v in vs && v.AtNode? && v.kind.Jumps?
    decreases |vs|
  {
    if vs != [] {
      GotosAre(r, vs[..|vs| - 1], loops);
      GotoNoted(NoteAll(r, vs[..|vs| - 1], loops), vs[|vs| - 1], loops);
      hide Note;
      InSnoc(vs);
    }
  }

  lemma GotoNoted(r: Record, v: Visit, loops: Loops)
    ensures Note(r, v, loops).fi.gotoLabel <==> r.fi.gotoLabel || (v.AtNode? && v.kind.Jumps?)
  { }

  predicate JumpsAt(t: Tree, at: seq<nat>) {
    Has(t, at) && NodeAt(t, at).kind.Jumps?
  }

  /** A function is one with goto exactly when there is a goto in it. */
  lemma WalkGotos(r: Record, t: Tree, stack: Path, loops: Loops, inLoop: bool)
    ensures NoteAll(r, Visits(t, stack, loops, inLoop), loops).fi.gotoLabel
            <==> r.fi.gotoLabel || exists at :: JumpsAt(t, at)
  {
    var vs := Visits(t, stack, loops, inLoop);
    GotosAre(r, vs, loops);
    if at :| JumpsAt(t, at) {
      var v := AtNode(NodeAt(t, at).kind, PathAt(t, at, stack));
      assert IsVisitOf(t, at, stack, v);
      VisitsAreNodes(t, stack, loops, inLoop, v);
    }
    if v :| v in vs && v.AtNode? && v.kind.Jumps? {
      VisitsAreNodes(t, stack, loops, inLoop, v);
      var at :| IsVisitOf(t, at, stack, v);
      assert JumpsAt(t, at);
    }
  }

  lemma {:induction false} InCallPaths(vs: seq<Visit>, g: Fn, p: Path)
    ensures p in CallPaths(vs, g) <==> exists v :: v in vs && v.AtNode? && CallsFunc(v.kind, g) && v.path == p
    decreases |vs|
  {
    if vs != [] {
      var front, last := vs[..|vs| - 1], vs[|vs| - 1];
      InCallPaths(front, g, p);
      InSnoc(vs);
    }
  }

  predicate CalledAt(t: Tree, at: seq<nat>, stack: Path, g: Fn, p: Path) {
    Has(t, at) && CallsFunc(NodeAt(t, at).kind, g) && p == WayTo(t, at, stack)
  }

  /** A walk records exactly the calls in the tree, each with its ancestors. */
  lemma WalkCalls(r: Record, t: Tree, stack: Path, loops: Loops, inLoop: bool, g: Fn, p: Path)
    ensures p in PathsOf(NoteAll(r, Visits(t, stack, loops, inLoop), loops).fi, g)
            <==> p in PathsOf(r.fi, g) || exists at :: CalledAt(t, at, stack, g, p)
  {
    var vs := Visits(t, stack, loops, inLoop);
    CallsAre(r, vs, loops, g);
    InCallPaths(vs, g, p);
    if at :| CalledAt(t, at, stack, g, p) {
      var v := AtNode(NodeAt(t, at).kind, PathAt(t, at, stack));
      assert IsVisitOf(t, at, stack, v);
      VisitsAreNodes(t, stack, loops, inLoop, v);
    }
    if v :| v in vs && v.AtNode? && CallsFunc(v.kind, g) && v.path == p {
      VisitsAreNodes(t, stack, loops, inLoop, v);
      var at :| IsVisitOf(t, at, stack, v);
      assert CalledAt(t, at, stack, g, p);
    }
  }

  predicate LiteralAt(t: Tree, at: seq<nat>, stack: Path, g: Fn, p: Path) {
    Has(t, at) && NodeAt(t, at).kind.CallsLiteral? && NodeAt(t, at).kind.g == g && p == PathAt(t, at, stack)
  }

  /** The same for calls of literals: the recorded way is one to a call of that literal, with the node of
      the call and its ancestors on it. */
  lemma WalkLiterals(r: Record, t: Tree, stack: Path, loops: Loops, inLoop: bool, g: Fn)
    ensures var q := NoteAll(r, Visits(t, stack, loops, inLoop), loops).fi;
            && (g in q.litCallees <==> g in r.fi.litCallees || exists at, p :: LiteralAt(t, at, stack, g, p))
            && (g in q.litCallees ==>
                  (g in r.fi.litCallees && q.litCallees[g] == r.fi.litCallees[g])
                  || exists at :: LiteralAt(t, at, stack, g, q.litCallees[g]))
  {
    var vs := Visits(t, stack, loops, inLoop);
    var q := NoteAll(r, vs, loops).fi;
    LiteralsAre(r, vs, loops, g);
    if at, p :| LiteralAt(t, at, stack, g, p) {
      var v := AtNode(NodeAt(t, at).kind, p);
      assert IsVisitOf(t, at, stack, v);
      VisitsAreNodes(t, stack, loops, inLoop, v);
      assert v in vs && CallsLit(v, g);
    }
    if exists v | v in vs :: CallsLit(v, g) {
      var v :| v in vs && CallsLit(v, g) && v.path == q.litCallees[g];
      VisitsAreNodes(t, stack, loops, inLoop, v);
      var at :| IsVisitOf(t, at, stack, v);
      assert LiteralAt(t, at, stack, g, v.path);
    }
  }

  lemma {:induction false} InContinueRecords(vs: seq<Visit>, loops: Loops, c: ContinueStmt)
    ensures c in ContinueRecords(vs, loops)
            <==> exists v :: v in vs && v.AtNode? && v.kind.Continues? && c in ContinuesOf(v.kind.target, v.path, loops)
    decreases |vs|
  {
    if vs != [] {
      var front, last := vs[..|vs| - 1], vs[|vs| - 1];
      InContinueRecords(front, loops, c);
      InSnoc(vs);
    }
  }

  predicate ContinuesAt(t: Tree, at: seq<nat>, stack: Path, loops: Loops, c: ContinueStmt) {
    Has(t, at) && NodeAt(t, at).kind.Continues?
    && c in ContinuesOf(NodeAt(t, at).kind.target, WayTo(t, at, stack), loops)
  }

  /** A walk records exactly the continues of for statements, with the post statement of the loop that was found. */
  lemma WalkContinues(r: Record, t: Tree, stack: Path, loops: Loops, inLoop: bool, c: ContinueStmt)
    ensures c in NoteAll(r, Visits(t, stack, loops, inLoop), loops).fi.continueStmts
            <==> c in r.fi.continueStmts || exists at :: ContinuesAt(t, at, stack, loops, c)
  {
    var vs := Visits(t, stack, loops, inLoop);
    ControlsAre(r, vs, loops);
    InContinueRecords(vs, loops, c);
    if at :| ContinuesAt(t, at, stack, loops, c) {
      var v := AtNode(NodeAt(t, at).kind, PathAt(t, at, stack));
      assert IsVisitOf(t, at, stack, v);
      VisitsAreNodes(t, stack, loops, inLoop, v);
    }
    if v :| v in vs && v.AtNode? && v.kind.Continues? && c in ContinuesOf(v.kind.target, v.path, loops) {
      VisitsAreNodes(t, stack, loops, inLoop, v);
      var at :| IsVisitOf(t, at, stack, v);
      assert ContinuesAt(t, at, stack, loops, c);
    }
  }

  lemma {:induction false} InReturnPaths(vs: seq<Visit>, p: Path)
    ensures p in ReturnPaths(vs) <==> exists v :: v in vs && v.AtNode? && v.kind.Returns? && v.path == p
    decreases |vs|
  {
    if vs != [] {
      var front, last := vs[..|vs| - 1], vs[|vs| - 1];
      InReturnPaths(front, p);
      InSnoc(vs);
    }
  }

  predicate ReturnsAt(t: Tree, at: seq<nat>, stack: Path, p: Path) {
    Has(t, at) && NodeAt(t, at).kind.Returns? && p == WayTo(t, at, stack)
  }

  /** And exactly the returns. */
  lemma WalkReturns(r: Record, t: Tree, stack: Path, loops: Loops, inLoop: bool, p: Path)
    ensures p in Paths(NoteAll(r, Visits(t, stack, loops, inLoop), loops).fi.returnStmts)
            <==> p in Paths(r.fi.returnStmts) || exists at :: ReturnsAt(t, at, stack, p)
  {
    var vs := Visits(t, stack, loops, inLoop);
    ControlsAre(r, vs, loops);
    InReturnPaths(vs, p);
    if at :| ReturnsAt(t, at, stack, p) {
      var v := AtNode(NodeAt(t, at).kind, PathAt(t, at, stack));
      assert IsVisitOf(t, at, stack, v);
      VisitsAreNodes(t, stack, loops, inLoop, v);
    }
    if v :| v in vs && v.AtNode? && v.kind.Returns? && v.path == p {
      VisitsAreNodes(t, stack, loops, inLoop, v);
      var at :| IsVisitOf(t, at, stack, v);
      assert ReturnsAt(t, at, stack, p);
    }
  }
}
