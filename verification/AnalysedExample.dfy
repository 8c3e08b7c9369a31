/** Two small programs, walked, analysed and translated: one that is right, and one whose continue is recorded
    with another loop. */
module AnalysedExample {
  import A = Analysis
  import opened GoSource
  import opened Emitter
  import opened WalkTree
  import opened WalkRecord
  import opened AnalysedPrograms
  import opened AnalysedCorrectness
  import opened MisplacedCases
  import W = WalkExamples

  // ----- trees whose nodes are numbered in the order of the source -----

  function Size(t: Tree): nat
    decreases t, 0
  {
    1 + SizeAll(t.children)
  }

  function SizeAll(ts: seq<Tree>): nat
    decreases ts, 1
  {
    if ts == [] then 0 else SizeAll(ts[..|ts| - 1]) + Size(ts[|ts| - 1])
  }

  predicate Numbered(t: Tree, lo: nat) {
    t.id == lo && forall i | 0 <= i < |t.children| :: Numbered(t.children[i], lo + 1 + SizeAll(t.children[..i]))
  }

  lemma {:induction false} SizeBelow(ts: seq<Tree>, i: nat, j: nat)
    requires i < j <= |ts|
    ensures SizeAll(ts[..i]) + Size(ts[i]) <= SizeAll(ts[..j])
    decreases j
  {
    assert ts[..j][..j - 1] == ts[..j - 1];
    if i < j - 1 { SizeBelow(ts, i, j - 1); }
  }

  lemma {:induction false} NumberedRange(t: Tree, lo: nat, at: seq<nat>)
    requires Numbered(t, lo) && Has(t, at)
    ensures lo <= NodeAt(t, at).id < lo + Size(t) && (at != [] ==> lo < NodeAt(t, at).id)
    decreases |at|
  {
    if at != [] {
      NumberedRange(t.children[at[0]], lo + 1 + SizeAll(t.children[..at[0]]), at[1..]);
      SizeBelow(t.children, at[0], |t.children|);
      assert t.children[..|t.children|] == t.children;
    }
  }

  lemma {:induction false} NumberedUnique(t: Tree, lo: nat, a: seq<nat>, b: seq<nat>)
    requires Numbered(t, lo) && Has(t, a) && Has(t, b) && NodeAt(t, a).id == NodeAt(t, b).id
    ensures a == b
    decreases |a|
  {
    NumberedRange(t, lo, a);
    NumberedRange(t, lo, b);
    if a != [] && b != [] {
      var ts := t.children;
      var la, lb := lo + 1 + SizeAll(ts[..a[0]]), lo + 1 + SizeAll(ts[..b[0]]);
      NumberedRange(ts[a[0]], la, a[1..]);
      NumberedRange(ts[b[0]], lb, b[1..]);
      if a[0] < b[0] { SizeBelow(ts, a[0], b[0]); }
      if b[0] < a[0] { SizeBelow(ts, b[0], a[0]); }
      NumberedUnique(ts[a[0]], la, a[1..], b[1..]);
      assert a == [a[0]] + a[1..] && b == [b[0]] + b[1..];
    }
  }

  // ----- one function without calls -----

  function Program(body: Stmt): Prog {
    map["main" := GoSource.Func.Func([], Cons(body, Nil))]
  }

  function Numbers(): Names {
    map["main" := 0]
  }

  lemma NoCallsToFollow(fi: A.FuncInfo)
    requires fi.blocking != {} && fi.instCallees == map[] && fi.litCallees == map[]
    ensures A.Propagated([fi], [fi])
  {
    assert A.Chain([fi], 0, []) && A.IsBlocking(fi);
  }

  /** What is left to show of such a program. */
  lemma IsAnalysed(body: Stmt, b: Body, fi: A.FuncInfo)
    requires fi.blocking != {} && fi.instCallees == map[] && fi.litCallees == map[]
    requires fi.returnStmts == [] && fi.deferStmts == []
    requires Walked(b, 1, fi) && TypedAll(Cons(body, Nil), TOP_SCOPE)
    requires ShowsBody(Unit(b.root, b.loops, Numbers(), A.ControlPass([fi], fi)), b.root, Cons(body, Nil), map[])
    ensures AnalysedProgram(Program(body), Numbers(), [b], [fi], [fi], [A.ControlPass([fi], fi)])
  {
    hide Walked, TypedAll, ShowsBody;
    NoCallsToFollow(fi);
    hide A.Propagated, A.ControlPass;
    A.ControlPassBlocksNothing([fi], [fi], 0);
  }

  /** Node n is the only continue, and there is no goto. */
  predicate OneContinue(t: Tree, n: A.Node) {
    && !t.kind.Jumps? && (t.kind.Continues? ==> t.id == n)
    && forall i | 0 <= i < |t.children| :: OneContinue(t.children[i], n)
  }

  lemma {:induction false} OneContinueAt(t: Tree, n: A.Node, at: seq<nat>)
    requires OneContinue(t, n) && Has(t, at)
    ensures OneContinue(NodeAt(t, at), n)
    decreases |at|
  {
    if at != [] { OneContinueAt(t.children[at[0]], n, at[1..]); }
  }

  lemma IsWalked(b: Body, fi: A.FuncInfo, n: A.Node)
    requires TreeOk(b.root, 1, b.parent, b.loops, false) && Numbered(b.root, 0) && OneContinue(b.root, n)
    requires NoteAll(NOTHING, Visits(b.root, [], b.loops, false), b.loops) == Record(fi, -1)
    requires A.RootPaths(b.parent, fi) && A.Closed(b.parent, fi)
    ensures Walked(b, 1, fi)
  {
    hide TreeOk, NoteAll, Visits, A.RootPaths, A.Closed;
    forall x, y | Has(b.root, x) && Has(b.root, y) && NodeAt(b.root, x).id == NodeAt(b.root, y).id ensures x == y {
      NumberedUnique(b.root, 0, x, y);
    }
    forall at | Has(b.root, at) ensures !NodeAt(b.root, at).kind.Jumps? { OneContinueAt(b.root, n, at); }
  }

  predicate Fits(t: Tree, lo: nat, n: A.Node, b: Body, inLoop: bool) {
    Numbered(t, lo) && OneContinue(t, n) && TreeOk(t, 1, b.parent, b.loops, inLoop)
  }

  predicate Below(b: Body, node: A.Node, parent: A.Node) {
    node in b.parent && b.parent[node] == parent
  }

  lemma Sizes(t: Tree)
    ensures SizeAll([t]) == Size(t) && SizeAll([]) == 0
  {
    assert [t][..0] == [];
  }

  /** A node with one child fits when the child does. */
  lemma OneFits(t: Tree, c: Tree, lo: nat, n: A.Node, b: Body, inLoop: bool)
    requires t == Tree(lo, Plain, [c]) && Fits(c, lo + 1, n, b, inLoop || lo in b.loops) && Below(b, c.id, lo)
    ensures Fits(t, lo, n, b, inLoop) && Size(t) == 1 + Size(c)
  {
    Sizes(c);
    assert t.children[..0] == [];
  }

  lemma LeafFits(t: Tree, n: A.Node, b: Body)
    requires t.children == [] && (t.kind.Blocks? || t.kind.GoStatement? || t.kind == Continues(A.None))
    requires t.kind.Continues? ==> t.id == n
    ensures Fits(t, t.id, n, b, true) && Size(t) == 1
  { }

  lemma TwoFits(t: Tree, c: Tree, d: Tree, lo: nat, n: A.Node, b: Body, inLoop: bool)
    requires t == Tree(lo, Plain, [c, d]) && Fits(c, lo + 1, n, b, inLoop || lo in b.loops) && Below(b, c.id, lo)
    requires Fits(d, lo + 1 + Size(c), n, b, inLoop || lo in b.loops) && Below(b, d.id, lo)
    ensures Fits(t, lo, n, b, inLoop)
  {
    hide Numbered, TreeOk, OneContinue, Size;
    TwoNumbered(t, c, d, lo);
    TwoOk(t, c, d, b, inLoop);
    TwoContinues(t, c, d, n);
  }

  lemma TwoContinues(t: Tree, c: Tree, d: Tree, n: A.Node)
    requires t.kind.Plain? && t.children == [c, d] && OneContinue(c, n) && OneContinue(d, n)
    ensures OneContinue(t, n)
  { }

  lemma TwoNumbered(t: Tree, c: Tree, d: Tree, lo: nat)
    requires t == Tree(lo, Plain, [c, d]) && Numbered(c, lo + 1) && Numbered(d, lo + 1 + Size(c))
    ensures Numbered(t, lo)
  {
    hide Size, SizeAll;
    Sizes(c);
    assert t.children[..0] == [] && t.children[..1] == [c];
  }

  lemma TwoOk(t: Tree, c: Tree, d: Tree, b: Body, inLoop: bool)
    requires t.kind.Plain? && t.children == [c, d] && Below(b, c.id, t.id) && Below(b, d.id, t.id)
    requires TreeOk(c, 1, b.parent, b.loops, inLoop || t.id in b.loops)
    requires TreeOk(d, 1, b.parent, b.loops, inLoop || t.id in b.loops)
    ensures TreeOk(t, 1, b.parent, b.loops, inLoop)
  { }

  lemma BranchFits(id: A.Node, b: Body)
    requires Below(b, id + 1, id) && Below(b, id + 2, id + 1)
    ensures Fits(W.BranchWithContinue(id, A.None), id, id + 2, b, true)
  {
    var t := W.BranchWithContinue(id, A.None);
    LeafFits(t.children[0].children[0], id + 2, b);
    OneFits(t.children[0], t.children[0].children[0], id + 1, id + 2, b, true);
    OneFits(t, t.children[0], id, id + 2, b, true);
  }

  lemma GoFits(id: A.Node, n: A.Node, b: Body)
    requires Below(b, id + 1, id) && Below(b, id + 2, id + 1)
    ensures Fits(W.LoopWithGo(id), id, n, b, true) && Size(W.LoopWithGo(id)) == 3
  {
    var t := W.LoopWithGo(id);
    LeafFits(t.children[0].children[0], n, b);
    OneFits(t.children[0], t.children[0].children[0], id + 1, n, b, true);
    OneFits(t, t.children[0], id, n, b, true);
  }

  lemma MainFits(ss: seq<Tree>, n: A.Node, b: Body)
    requires Below(b, 1, 0) && Below(b, 2, 1) && Below(b, 3, 2) && Below(b, 4, 1) && 1 in b.loops && 0 !in b.loops
    requires Fits(Tree(4, Plain, ss), 4, n, b, true)
    ensures Fits(W.Main(ss), 0, n, b, false)
  {
    var loop := W.Main(ss).children[0];
    LeafFits(Tree(3, Blocks(false), []), n, b);
    OneFits(W.Receive(2), Tree(3, Blocks(false), []), 2, n, b, true);
    TwoFits(loop, W.Receive(2), Tree(4, Plain, ss), 1, n, b, false);
    OneFits(W.Main(ss), loop, 0, n, b, false);
  }

  lemma PathByPlaces(parent: map<A.Node, A.Node>, p: A.Path, places: seq<nat>)
    requires p != [] && |places| == |p|
    requires forall i | 0 <= i < |p| && p[i] in parent :: places[i] < i && parent[p[i]] == p[places[i]]
    ensures A.RootPath(parent, p)
  {
    forall i | 0 <= i < |p| && p[i] in parent ensures parent[p[i]] in p[..i] {
      assert p[..i][places[i]] == p[places[i]];
    }
  }

  // ----- their statements -----

  /** `for z { go f() }`; starting f is no concern of the translation. */
  function GoLoop(): Stmt {
    For(Some(Local("z")), Nil, Cons(Simple(Assign("_", Num(0))), Nil), false)
  }

  predicate Unmarked(u: Unit, n: A.Node) {
    n !in u.fi.flattened && n !in u.fi.blocking
  }

  predicate Marked(u: Unit, n: A.Node) {
    n in u.fi.flattened && n in u.fi.blocking
  }

  lemma OneShown(u: Unit, t: Tree, s: Stmt, labels: map<Label, A.Node>)
    requires Shows(u, t, s, None, labels)
    ensures ShowsAll(u, [t], Cons(s, Nil), labels)
  {
    hide Shows;
    assert [t][1..] == [] && ShowsAll(u, [], Nil, labels);
  }

  lemma BranchShown(u: Unit, id: A.Node, flat: bool, labels: map<Label, A.Node>)
    requires id !in u.loops && id + 1 !in u.loops && None in labels
    requires if flat then Marked(u, id) && Marked(u, id + 2) else Unmarked(u, id) && Unmarked(u, id + 2)
    ensures Shows(u, W.BranchWithContinue(id, A.None), Branch(Local("x"), None, flat), None, labels)
  {
    var t := W.BranchWithContinue(id, A.None);
    var inner := t.children[0];
    OneShown(u, inner.children[0], Continue(None, flat), labels);
    assert t.children[1..] == [] && ShowsClauses(u, [], End, labels);
    assert ShowsBody(u, inner, Cons(Continue(None, flat), Nil), labels);
  }

  lemma GoLoopShown(u: Unit, id: A.Node, labels: map<Label, A.Node>)
    requires id in u.loops && u.loops[id] == ForLoop(A.None) && id + 1 !in u.loops && Unmarked(u, id)
    ensures Shows(u, W.LoopWithGo(id), GoLoop(), None, labels)
  {
    var t := W.LoopWithGo(id);
    OneShown(u, W.Go(id + 2), GoLoop().body.head, labels[None := id]);
  }

  lemma MainShown(u: Unit, ts: seq<Tree>, first: Stmts, flat: bool)
    requires 0 !in u.loops && 1 in u.loops && 2 !in u.loops && 4 !in u.loops && u.loops[1] == ForLoop(A.Some(2))
    requires Marked(u, 1) && Marked(u, 3) && "$recv" !in u.names
    requires ShowsAll(u, ts, ReceivingLoop(first, flat).body, map[None := 1])
    ensures ShowsBody(u, W.Main(ts), Cons(ReceivingLoop(first, flat), Nil), map[])
  {
    hide ShowsAll;
    var loop, s := W.Main(ts).children[0], ReceivingLoop(first, flat);
    OneShown(u, Tree(3, Blocks(false), []), s.post.head, map[None := 1]);
    assert Shows(u, loop, s, None, map[]) by {
      var labels: map<Label, A.Node> := map[];
      assert labels[None := 1][None := 1] == map[None := 1];
    }
    OneShown(u, loop, s, map[]);
  }

  // ----- a loop whose continue is recorded with it -----

  /** `for ; ; <-c { if x { continue } }`, flattened throughout. */
  function Right(): Prog {
    Program(ReceivingLoop(Nil, true))
  }

  const RIGHT := Body(W.Main([W.BranchWithContinue(5, A.None)]),
                      map[1 := 0, 2 := 1, 3 := 2, 4 := 1, 5 := 4, 6 := 5, 7 := 6], map[1 := ForLoop(A.Some(2))])
  const RIGHT_FI := W.RECEIVED.(continueStmts := [A.ContinueStmt(A.Some(2), [0, 1, 4, 5, 6, 7])])

  lemma RightRecord()
    ensures NoteAll(NOTHING, Visits(RIGHT.root, [], RIGHT.loops, false), RIGHT.loops) == Record(RIGHT_FI, -1)
  {
    var r := Record(W.RECEIVED, 0);
    var branch := W.BranchWithContinue(5, A.None);
    hide W.WalkAll;
    W.WalkOne(r, branch, [0, 1, 4], RIGHT.loops, true);
    W.WalkBranch(r, 5, A.None, [0, 1, 4], RIGHT.loops);
    assert [0, 1, 4] + [5, 6, 7] == [0, 1, 4, 5, 6, 7];
    RightLoop();
    W.WalkMain([branch], RIGHT.loops);
  }

  lemma RightLoop()
    ensures LastLoop([0, 1, 4, 5, 6, 7], RIGHT.loops) == A.Some(1)
  {
    LoopFound([0], 1, [4, 5, 6, 7], RIGHT.loops);
    assert [0] + [1] + [4, 5, 6, 7] == [0, 1, 4, 5, 6, 7];
  }

  lemma RightFits()
    ensures Fits(RIGHT.root, 0, 7, RIGHT, false)
  {
    var branch := W.BranchWithContinue(5, A.None);
    BranchFits(5, RIGHT);
    OneFits(Tree(4, Plain, [branch]), branch, 4, 7, RIGHT, true);
    MainFits([branch], 7, RIGHT);
  }

  lemma RightMarks()
    ensures A.ControlPass([RIGHT_FI], RIGHT_FI).blocking == {0, 1, 2, 3, 4, 5, 6, 7}
    ensures A.ControlPass([RIGHT_FI], RIGHT_FI).flattened == {0, 1, 2, 3, 4, 5, 6, 7}
  {
    var c := RIGHT_FI.continueStmts[0];
    assert [c][1..] == [] && A.ContinueBlocks(RIGHT_FI, c);
    assert A.ContinuePass(RIGHT_FI, [c]) == A.Mark(RIGHT_FI, A.Nodes(c.path));
  }

  lemma RightShown()
    ensures var t := A.ControlPass([RIGHT_FI], RIGHT_FI);
            ShowsBody(Unit(RIGHT.root, RIGHT.loops, Numbers(), t), RIGHT.root, Right()["main"].body, map[])
    ensures TypedAll(Right()["main"].body, TOP_SCOPE)
  {
    RightMarks();
    var u := Unit(RIGHT.root, RIGHT.loops, Numbers(), A.ControlPass([RIGHT_FI], RIGHT_FI));
    hide A.ControlPass, ShowsAll, Shows;
    BranchShown(u, 5, true, map[None := 1]);
    OneShown(u, W.BranchWithContinue(5, A.None), Branch(Local("x"), None, true), map[None := 1]);
    MainShown(u, [W.BranchWithContinue(5, A.None)], Nil, true);
  }

  lemma RightPath()
    ensures A.RootPath(RIGHT.parent, [0, 1, 4, 5, 6, 7])
  {
    hide A.RootPath;
    PathByPlaces(RIGHT.parent, [0, 1, 4, 5, 6, 7], [0, 0, 1, 2, 3, 4]);
  }

  lemma RightPaths()
    ensures A.RootPaths(RIGHT.parent, RIGHT_FI) && A.Closed(RIGHT.parent, RIGHT_FI)
  {
    hide A.RootPath;
    RightPath();
    assert forall c | c in RIGHT_FI.continueStmts :: c.path == [0, 1, 4, 5, 6, 7];
  }

  lemma WayToRight()
    ensures Has(RIGHT.root, [0, 1, 0, 0, 0]) && NodeAt(RIGHT.root, [0, 1, 0, 0, 0]).id == 7
    ensures WayTo(RIGHT.root, [0, 1, 0, 0, 0], []) == [0, 1, 4, 5, 6, 7]
  {
    var branch := W.BranchWithContinue(5, A.None);
    var body := Tree(4, Plain, [branch]);
    assert [0, 0, 0][1..] == [0, 0] && [branch][..0] == [] && [0, 1] + [4] == [0, 1, 4];
    assert AfterAll([], [0, 1, 4]) == [0, 1, 4] && [0, 1] + [0, 0, 0] == [0, 1, 0, 0, 0];
    W.WayInBranch(5, A.None, [0, 1, 4]);
    assert Has(body, [0, 0, 0]);
    W.OneStep(body, [0, 0, 0], [0, 1]);
    W.WayInMain([branch], [0, 0, 0]);
    assert [0, 1, 4] + [5, 6, 7] == [0, 1, 4, 5, 6, 7];
    assert [0, 0][1..] == [0] && [0][1..] == [] && NodeAt(branch, [0, 0]).id == 7;
  }

  lemma RightOwnLoop()
    ensures OwnLoops(RIGHT.root, RIGHT.loops)
  {
    hide Numbered, OneContinue, TreeOk, W.Main, NodeAt, Has, LoopAround, LastLoop;
    var to := [0, 1, 0, 0, 0];
    WayToRight();
    RightLoop();
    AroundRight();
    RightFits();
    forall at | Has(RIGHT.root, at) && NodeAt(RIGHT.root, at).kind == Continues(A.None) ensures at == to {
      ContinueNumber(RIGHT.root, 7, at);
      NumberedUnique(RIGHT.root, 0, at, to);
    }
  }

  lemma ContinueNumber(t: Tree, n: A.Node, at: seq<nat>)
    requires OneContinue(t, n) && Has(t, at) && NodeAt(t, at).kind.Continues?
    ensures NodeAt(t, at).id == n
  {
    OneContinueAt(t, n, at);
  }

  lemma RightWalked()
    ensures Walked(RIGHT, 1, RIGHT_FI)
  {
    RightRecord();
    hide NoteAll, Visits, Numbered, OneContinue, TreeOk, A.RootPaths, A.Closed;
    RightFits();
    RightPaths();
    IsWalked(RIGHT, RIGHT_FI, 7);
  }

  lemma AroundRight()
    ensures Has(RIGHT.root, [0, 1, 0, 0, 0])
    ensures LoopAround(RIGHT.root, [0, 1, 0, 0, 0], RIGHT.loops, A.None) == A.Some(1)
  {
    assert [0, 1, 0, 0, 0][1..] == [1, 0, 0, 0] && [1, 0, 0, 0][1..] == [0, 0, 0];
    assert [0, 0, 0][1..] == [0, 0] && [0, 0][1..] == [0] && [0][1..] == [];
  }

  /** The program is analysed, and every hypothesis of the theorem about such programs holds. */
  lemma RightIsAnalysed()
    ensures var t := A.ControlPass([RIGHT_FI], RIGHT_FI);
            AnalysedProgram(Right(), Numbers(), [RIGHT], [RIGHT_FI], [RIGHT_FI], [t])
    ensures OwnLoops(RIGHT.root, RIGHT.loops) && OkProg(Right())
  {
    hide AnalysedProgram, Walked, TypedAll, ShowsBody, OwnLoops, OkProg, A.ControlPass;
    RightWalked();
    RightShown();
    IsAnalysed(ReceivingLoop(Nil, true), RIGHT, RIGHT_FI);
    RightOwnLoop();
    AnalysisGivesOk(Right(), Numbers(), [RIGHT], [RIGHT_FI], [RIGHT_FI], [A.ControlPass([RIGHT_FI], RIGHT_FI)]);
  }

  // ----- a loop whose continue is recorded with another one -----

  /** `for ; ; <-c { for z { go f() }; if x { continue } }`, whose if statement is not flattened. */
  function Wrong(): Prog {
    Program(ReceivingLoop(Cons(GoLoop(), Nil), false))
  }

  const WRONG := Body(W.WrongLoop(),
                      map[1 := 0, 2 := 1, 3 := 2, 4 := 1, 5 := 4, 6 := 5, 7 := 6, 8 := 4, 9 := 8, 10 := 9],
                      W.WRONG_LOOPS)
  const WRONG_FI := W.RECEIVED.(continueStmts := [A.ContinueStmt(A.None, [0, 1, 4, 5, 8, 9, 10])])

  lemma WrongFits()
    ensures Fits(WRONG.root, 0, 10, WRONG, false)
  {
    var branch := W.BranchWithContinue(8, A.None);
    GoFits(5, 10, WRONG);
    BranchFits(8, WRONG);
    TwoFits(Tree(4, Plain, [W.LoopWithGo(5), branch]), W.LoopWithGo(5), branch, 4, 10, WRONG, true);
    MainFits([W.LoopWithGo(5), branch], 10, WRONG);
  }

  lemma WrongPath()
    ensures A.RootPath(WRONG.parent, [0, 1, 4, 5, 8, 9, 10])
  {
    hide A.RootPath;
    PathByPlaces(WRONG.parent, [0, 1, 4, 5, 8, 9, 10], [0, 0, 1, 2, 2, 4, 5]);
  }

  lemma WrongPaths()
    ensures A.RootPaths(WRONG.parent, WRONG_FI) && A.Closed(WRONG.parent, WRONG_FI)
  {
    hide A.RootPath;
    WrongPath();
    assert forall c | c in WRONG_FI.continueStmts :: c.path == [0, 1, 4, 5, 8, 9, 10];
  }

  lemma WrongMarks()
    ensures A.ControlPass([WRONG_FI], WRONG_FI) == WRONG_FI
  {
    assert [WRONG_FI.continueStmts[0]][1..] == [];
  }

  lemma WrongShown()
    ensures ShowsBody(Unit(WRONG.root, WRONG.loops, Numbers(), WRONG_FI), WRONG.root, Wrong()["main"].body, map[])
  {
    hide ShowsAll, Shows;
    var u := Unit(WRONG.root, WRONG.loops, Numbers(), WRONG_FI);
    var branch, labels := W.BranchWithContinue(8, A.None), map[None := 1];
    GoLoopShown(u, 5, labels);
    BranchShown(u, 8, false, labels);
    OneShown(u, branch, Branch(Local("x"), None, false), labels);
    TwoShown(u, W.LoopWithGo(5), branch, GoLoop(), Branch(Local("x"), None, false), labels);
    MainShown(u, [W.LoopWithGo(5), branch], Cons(GoLoop(), Nil), false);
  }

  lemma TwoShown(u: Unit, t: Tree, t': Tree, s: Stmt, s': Stmt, labels: map<Label, A.Node>)
    requires Shows(u, t, s, None, labels) && ShowsAll(u, [t'], Cons(s', Nil), labels)
    ensures ShowsAll(u, [t, t'], Cons(s, Cons(s', Nil)), labels)
  {
    hide Shows;
    assert [t, t'][1..] == [t'];
  }

  lemma WrongTyped()
    ensures TypedAll(Wrong()["main"].body, TOP_SCOPE)
  { }

  lemma WrongIsNotOk()
    ensures !OkProg(Wrong())
  {
    assert Wrong()["main"].body.head == ReceivingLoop(Cons(GoLoop(), Nil), false);
  }

  lemma WrongWalked()
    ensures Walked(WRONG, 1, WRONG_FI)
  {
    W.RecordOfWrongLoop();
    hide NoteAll, Visits, Numbered, OneContinue, TreeOk, A.RootPaths, A.Closed;
    WrongFits();
    WrongPaths();
    IsWalked(WRONG, WRONG_FI, 10);
  }

  lemma WrongLoopFound()
    ensures !OwnLoops(WRONG.root, WRONG.loops)
  {
    W.ContinueOfTheWrongLoop();
    AroundWrong();
  }

  lemma AroundWrong()
    ensures Has(WRONG.root, [0, 1, 1, 0, 0])
    ensures LoopAround(WRONG.root, [0, 1, 1, 0, 0], WRONG.loops, A.None) == A.Some(1)
  {
    assert [0, 1, 1, 0, 0][1..] == [1, 1, 0, 0] && [1, 1, 0, 0][1..] == [1, 0, 0];
    assert [1, 0, 0][1..] == [0, 0] && [0, 0][1..] == [0] && [0][1..] == [];
  }

  lemma WrongCode() returns (k: nat)
    ensures var fn := Compile(Wrong()["main"]);
            fn.Flat? && k < |fn.code| && fn.code[k].JIf? && HasCase(fn.code[k].thn)
  {
    hide EmitStmt, HasCase;
    var s := ReceivingLoop(Cons(GoLoop(), Nil), false);
    k := CaseInTheLoop(Cons(GoLoop(), Nil), TOP, 1);
    var c := EmitStmt(s, None, TOP, 1, true);
    assert EmitList(Cons(s, Nil), TOP, 1, true).js == c.js + EmitList(Nil, TOP, c.next, true).js;
    k := k + 1;
  }

  /** Without its own loop for every continue the theorem does not hold: this program is analysed, but it is none that
      the translation handles, and its code has a case inside the braces of an if statement. */
  lemma WrongIsAnalysed() returns (k: nat)
    ensures AnalysedProgram(Wrong(), Numbers(), [WRONG], [WRONG_FI], [WRONG_FI], [A.ControlPass([WRONG_FI], WRONG_FI)])
    ensures !OwnLoops(WRONG.root, WRONG.loops) && !OkProg(Wrong())
    ensures var fn := Compile(Wrong()["main"]);
            fn.Flat? && k < |fn.code| && fn.code[k].JIf? && HasCase(fn.code[k].thn)
  {
    hide AnalysedProgram, Walked, TypedAll, ShowsBody, OwnLoops, OkProg, A.ControlPass, Compile, HasCase;
    WrongWalked();
    WrongMarks();
    WrongShown();
    WrongTyped();
    IsAnalysed(ReceivingLoop(Cons(GoLoop(), Nil), false), WRONG, WRONG_FI);
    WrongLoopFound();
    WrongIsNotOk();
    k := WrongCode();
  }
}
