/** Small functions whose walk leaves nodes on the stack.  Identifiers are left out of the trees. */
module WalkExamples {
  import opened Analysis
  import opened WalkTree
  import opened WalkRecord

  lemma Single(c: Tree, stack: Path, k: nat, loops: Loops)
    ensures AfterAll([c], stack) == After(c, stack) && UnpoppedAll([c]) == Unpopped(c)
    ensures LoopAmongAll([c], k, loops) == LoopAmong(c, if k < Unpopped(c) then k else Unpopped(c), loops)
  {
    assert [c][..0] == [];
    assert AfterAll([], stack) == stack && UnpoppedAll([]) == 0;
    assert !LoopAmongAll([], 0, loops);
  }

  function Go(id: Node): Tree { Tree(id, GoStatement, []) }

  /** `for z { go f() }`, the body being node id + 1. */
  function LoopWithGo(id: Node): Tree {
    Tree(id, Plain, [Tree(id + 1, Plain, [Go(id + 2)])])
  }

  lemma LoopWithGoLeaves(id: Node, loops: Loops)
    requires id in loops
    ensures Unpopped(LoopWithGo(id)) == 1 && LeavesLoop(LoopWithGo(id), loops)
  {
    Single(Go(id + 2), [], 0, loops);
    Single(Tree(id + 1, Plain, [Go(id + 2)]), [], 0, loops);
    assert Unpopped(Go(id + 2)) == 1;
  }

  /** In `{ go f(); <-c }` the receive marks the go statement too. */
  lemma GoStaysOnStack()
    ensures var body := Tree(0, Plain, [Go(1), Tree(2, Blocks(false), [])]);
            MarkedBy(body, [1], [], 1) && 1 !in Ancestors(body, [1])
  {
    var body := Tree(0, Plain, [Go(1), Tree(2, Blocks(false), [])]);
    assert [1][1..] == [] && body.children[..1] == [Go(1)];
    Single(Go(1), [0], 0, map[]);
    assert AfterAll([], [0, 1]) == [0, 1] && [] + [0] == [0] && [0] + [1] == [0, 1];
    assert WayTo(body, [1], []) == [0, 1] + [2];
    assert Ancestors(body, [1]) == [0] + [2];
  }

  lemma LeavesOne(t: Tree, stack: Path)
    requires Unpopped(t) == 1
    ensures After(t, stack) == stack + [t.id]
  {
    StackGrows(t, stack);
    StacksGrow(t.children, stack + [t.id]);
  }

  lemma LeavesNone(t: Tree, stack: Path)
    requires Unpopped(t) == 0
    ensures After(t, stack) == stack
  {
    StackGrows(t, stack);
  }

  lemma OneStep(t: Tree, at: seq<nat>, stack: Path)
    requires at != [] && Has(t, at)
    ensures WayTo(t, at, stack) == WayTo(t.children[at[0]], at[1..], AfterAll(t.children[..at[0]], stack + [t.id]))
    ensures NodeAt(t, at) == NodeAt(t.children[at[0]], at[1..])
  { }

  lemma Positions()
    ensures [1, 1, 0, 0][1..] == [1, 0, 0] && [1, 0, 0][1..] == [0, 0] && [0, 0][1..] == [0] && [0][1..] == []
    ensures [0, 1, 1, 0, 0][1..] == [1, 1, 0, 0]
  { }

  /** `if x { continue }` with nodes id, id + 1 and id + 2. */
  function BranchWithContinue(id: Node, target: Option<Node>): Tree {
    Tree(id, Plain, [Tree(id + 1, Plain, [Tree(id + 2, Continues(target), [])])])
  }

  lemma WayInBranch(id: Node, target: Option<Node>, stack: Path)
    ensures Has(BranchWithContinue(id, target), [0, 0])
    ensures WayTo(BranchWithContinue(id, target), [0, 0], stack) == stack + [id, id + 1, id + 2]
    ensures NodeAt(BranchWithContinue(id, target), [0, 0]).kind == Continues(target)
  {
    Positions();
    var t := BranchWithContinue(id, target);
    var u := t.children[0];
    assert t.children[..0] == [] && u.children[..0] == [];
    assert AfterAll([], stack + [id]) == stack + [id];
    assert AfterAll([], stack + [id] + [id + 1]) == stack + [id] + [id + 1];
    assert Has(u, [0]) && Has(u.children[0], []);
    assert WayTo(u, [0], stack + [id]) == stack + [id] + [id + 1] + [id + 2];
    assert WayTo(t, [0, 0], stack) == WayTo(u, [0], stack + [id]);
  }

  /** `<-c` as the post statement, nodes id and id + 1. */
  function Receive(id: Node): Tree {
    Tree(id, Plain, [Tree(id + 1, Blocks(false), [])])
  }

  lemma ReceiveLeavesNothing(id: Node)
    ensures Unpopped(Receive(id)) == 0
  {
    Single(Tree(id + 1, Blocks(false), []), [], 0, map[]);
  }

  /** `func main() { for ; ; <-c { ss } }`; the loop is node 1, its post statement node 2, its body node 4. */
  function Main(ss: seq<Tree>): Tree {
    Tree(0, Plain, [Tree(1, Plain, [Receive(2), Tree(4, Plain, ss)])])
  }

  lemma WayInMain(ss: seq<Tree>, at: seq<nat>)
    requires Has(Tree(4, Plain, ss), at)
    ensures Has(Main(ss), [0, 1] + at) && NodeAt(Main(ss), [0, 1] + at) == NodeAt(Tree(4, Plain, ss), at)
    ensures WayTo(Main(ss), [0, 1] + at, []) == WayTo(Tree(4, Plain, ss), at, [0, 1])
  {
    hide After;
    var loop := Main(ss).children[0];
    var to := [1] + at;
    assert to[1..] == at && [0, 1] + at == [0] + to && ([0] + to)[1..] == to;
    assert [] + [0] == [0] && [0] + [1] == [0, 1] && loop.children[..1] == [Receive(2)] && [loop][..0] == [];
    ReceiveLeavesNothing(2);
    LeavesNone(Receive(2), [0, 1]);
    Single(Receive(2), [0, 1], 0, map[]);
    assert Has(loop, to);
    OneStep(loop, to, [0]);
    OneStep(Main(ss), [0] + to, []);
  }

  // ----- walking the examples -----

  /** After the post statement of Main. */
  const RECEIVED := FuncInfo({0, 1, 2, 3}, {0, 1, 2, 3}, map[], map[], [], [], [], false)

  function Walk(r: Record, t: Tree, stack: Path, loops: Loops, inLoop: bool): Record {
    NoteAll(r, Visits(t, stack, loops, inLoop), loops)
  }

  function WalkAll(r: Record, ts: seq<Tree>, stack: Path, loops: Loops, inLoop: bool): Record {
    NoteAll(r, VisitsAll(ts, stack, loops, inLoop), loops)
  }

  lemma WalkNone(r: Record, stack: Path, loops: Loops, inLoop: bool)
    ensures WalkAll(r, [], stack, loops, inLoop) == r
  { }

  lemma WalkOne(r: Record, t: Tree, stack: Path, loops: Loops, inLoop: bool)
    ensures WalkAll(r, [t], stack, loops, inLoop) == Walk(r, t, stack, loops, inLoop)
  {
    hide NoteAll, Visits;
    assert [t][..0] == [] && AfterAll([], stack) == stack && VisitsAll([], stack, loops, inLoop) == [];
    var vs := Visits(t, stack, loops, inLoop);
    assert VisitsAll([t], stack, loops, inLoop) == [] + vs == vs;
  }

  lemma WalkTwo(r: Record, a: Tree, b: Tree, stack: Path, loops: Loops, inLoop: bool)
    ensures WalkAll(r, [a, b], stack, loops, inLoop) ==
              Walk(Walk(r, a, stack, loops, inLoop), b, After(a, stack), loops, inLoop)
  {
    hide NoteAll, Visits, After;
    assert [a, b][..1] == [a];
    Single(a, stack, 0, loops);
    WalkOne(r, a, stack, loops, inLoop);
    NoteParts(r, VisitsAll([a], stack, loops, inLoop), Visits(b, After(a, stack), loops, inLoop), loops);
  }

  lemma WalkPlain(r: Record, t: Tree, stack: Path, loops: Loops, inLoop: bool)
    requires t.kind.Plain? || t.kind.GoStatement? || t.kind.Literal?
    requires t.id !in loops || inLoop
    ensures Walk(r, t, stack, loops, inLoop) == WalkAll(r, t.children, stack + [t.id], loops, inLoop)
  {
    hide NoteAll, VisitsAll;
    var here := AtNode(t.kind, stack + [t.id]);
    assert Visits(t, stack, loops, inLoop) == [here] + VisitsAll(t.children, stack + [t.id], loops, inLoop);
    NoteParts(r, [here], VisitsAll(t.children, stack + [t.id], loops, inLoop), loops);
    NoteOne(r, here, loops);
    assert Note(r, here, loops) == r;
  }

  lemma WalkLeaf(r: Record, t: Tree, stack: Path, loops: Loops, inLoop: bool)
    requires t.children == [] && !t.kind.CallsLiteral? && (t.id !in loops || inLoop)
    ensures Walk(r, t, stack, loops, inLoop) == r.(fi := NoteNode(r.fi, t.kind, stack + [t.id], loops))
  {
    hide NoteNode;
    var here := AtNode(t.kind, stack + [t.id]);
    NoteOne(r, here, loops);
    assert Visits(t, stack, loops, inLoop) == [here] + VisitsAll([], stack + [t.id], loops, inLoop) == [here];
  }

  lemma WalkCall(r: Record, t: Tree, stack: Path, loops: Loops, inLoop: bool)
    requires t.kind.CallsLiteral? && (t.id !in loops || inLoop)
    ensures var q := WalkAll(r, t.children, stack + [t.id], loops, inLoop);
            Walk(r, t, stack, loops, inLoop) ==
              q.(fi := NoteNode(q.fi, t.kind, AfterAll(t.children, stack + [t.id]), loops))
  {
    hide NoteAll, VisitsAll, NoteNode, AfterAll;
    var inside := VisitsAll(t.children, stack + [t.id], loops, inLoop);
    var here := AtNode(t.kind, AfterAll(t.children, stack + [t.id]));
    assert Visits(t, stack, loops, inLoop) == inside + [here];
    NoteParts(r, inside, [here], loops);
    NoteOne(NoteAll(r, inside, loops), here, loops);
  }

  lemma WalkLoop(r: Record, t: Tree, stack: Path, loops: Loops)
    requires t.kind.Plain? && t.id in loops
    ensures Walk(r, t, stack, loops, false) ==
              Note(WalkAll(Note(r, LoopBegins, loops), t.children, stack + [t.id], loops, true), LoopEnds, loops)
  {
    hide NoteAll, Note, VisitsAll;
    var all := Visits(t, stack, loops, true);
    var r1 := Note(r, LoopBegins, loops);
    NoteParts(r, [LoopBegins] + all, [LoopEnds], loops);
    NoteParts(r, [LoopBegins], all, loops);
    NoteOne(r, LoopBegins, loops);
    NoteOne(NoteAll(r1, all, loops), LoopEnds, loops);
    WalkPlain(r1, t, stack, loops, true);
  }

  lemma WalkReceive(r: Record, id: Node, stack: Path, loops: Loops)
    ensures Walk(r, Receive(id), stack, loops, true) == r.(fi := Blocked(r.fi, stack + [id, id + 1], false))
  {
    hide Walk, WalkAll;
    var leaf := Tree(id + 1, Blocks(false), []);
    WalkPlain(r, Receive(id), stack, loops, true);
    WalkOne(r, leaf, stack + [id], loops, true);
    WalkLeaf(r, leaf, stack + [id], loops, true);
    assert stack + [id] + [id + 1] == stack + [id, id + 1];
  }

  lemma WalkBranch(r: Record, id: Node, target: Option<Node>, stack: Path, loops: Loops)
    ensures Walk(r, BranchWithContinue(id, target), stack, loops, true) ==
              r.(fi := NoteNode(r.fi, Continues(target), stack + [id, id + 1, id + 2], loops))
  {
    hide Walk, WalkAll, NoteNode;
    var t := BranchWithContinue(id, target);
    var u := t.children[0];
    var leaf := u.children[0];
    WalkPlain(r, t, stack, loops, true);
    WalkOne(r, u, stack + [id], loops, true);
    WalkPlain(r, u, stack + [id], loops, true);
    WalkOne(r, leaf, stack + [id] + [id + 1], loops, true);
    WalkLeaf(r, leaf, stack + [id] + [id + 1], loops, true);
    assert stack + [id] + [id + 1] + [id + 2] == stack + [id, id + 1, id + 2];
  }

  lemma WalkGo(r: Record, id: Node, stack: Path, loops: Loops)
    ensures Walk(r, LoopWithGo(id), stack, loops, true) == r
  {
    hide Walk, WalkAll;
    var t := LoopWithGo(id);
    var u := t.children[0];
    WalkPlain(r, t, stack, loops, true);
    WalkOne(r, u, stack + [id], loops, true);
    WalkPlain(r, u, stack + [id], loops, true);
    WalkOne(r, Go(id + 2), stack + [id] + [id + 1], loops, true);
    WalkPlain(r, Go(id + 2), stack + [id] + [id + 1], loops, true);
    WalkNone(r, stack + [id] + [id + 1] + [id + 2], loops, true);
  }

  /** What main records is what the statements in its loop record after the receive. */
  lemma WalkMain(ss: seq<Tree>, loops: Loops)
    requires 0 !in loops && 1 in loops && 4 !in loops
    requires WalkAll(Record(RECEIVED, 0), ss, [0, 1, 4], loops, true).fi.returnStmts == []
    ensures Walk(NOTHING, Main(ss), [], loops, false) ==
              Record(WalkAll(Record(RECEIVED, 0), ss, [0, 1, 4], loops, true).fi, -1)
  {
    hide Walk, WalkAll;
    var loop := Main(ss).children[0];
    var body := loop.children[1];
    assert [] + [0] == [0] && [0] + [1] == [0, 1] && [0, 1] + [4] == [0, 1, 4];
    WalkPlain(NOTHING, Main(ss), [], loops, false);
    WalkOne(NOTHING, loop, [0], loops, false);
    WalkLoop(NOTHING, loop, [0], loops);
    var r := Note(NOTHING, LoopBegins, loops);
    WalkTwo(r, Receive(2), body, [0, 1], loops, true);
    WalkReceive(r, 2, [0, 1], loops);
    assert Blocked(NOTHING.fi, [0, 1] + [2, 3], false) == RECEIVED by {
      assert [0, 1] + [2, 3] == [0, 1, 2, 3];
    }
    ReceiveLeavesNothing(2);
    LeavesNone(Receive(2), [0, 1]);
    WalkPlain(Record(RECEIVED, 0), body, [0, 1], loops, true);
    assert WithDefers([], 0, []) == [];
  }

  // ----- a continue that is taken for one of another loop -----

  /** `func main() { for ; ; <-c { for z { go f() }; if x { continue } } }` */
  function WrongLoop(): Tree {
    Main([LoopWithGo(5), BranchWithContinue(8, None)])
  }

  const WRONG_LOOPS: Loops := map[1 := ForLoop(Some(2)), 5 := ForLoop(None)]

  lemma WayToTheContinue()
    ensures Has(WrongLoop(), [0, 1, 1, 0, 0]) && NodeAt(WrongLoop(), [0, 1, 1, 0, 0]).kind == Continues(None)
    ensures WayTo(WrongLoop(), [0, 1, 1, 0, 0], []) == [0, 1, 4, 5, 8, 9, 10]
  {
    Positions();
    hide After;
    var ss := [LoopWithGo(5), BranchWithContinue(8, None)];
    var body := Tree(4, Plain, ss);
    assert [0, 1] + [4] == [0, 1, 4] && [0, 1, 4] + [5] == [0, 1, 4, 5] && [0, 1] + [1, 0, 0] == [0, 1, 1, 0, 0];
    WayInBranch(8, None, [0, 1, 4, 5]);
    LoopWithGoLeaves(5, WRONG_LOOPS);
    LeavesOne(LoopWithGo(5), [0, 1, 4]);
    Single(LoopWithGo(5), [0, 1, 4], 0, WRONG_LOOPS);
    assert ss[..1] == [LoopWithGo(5)];
    assert Has(body, [1, 0, 0]);
    OneStep(body, [1, 0, 0], [0, 1]);
    WayInMain(ss, [1, 0, 0]);
  }

  /** The continue is taken to continue the inner loop. */
  lemma ContinueOfTheWrongLoop()
    ensures var loop := WrongLoop().children[0];
            && loop.id == 1 && Has(loop, [1, 1, 0, 0]) && NodeAt(loop, [1, 1, 0, 0]).kind == Continues(None)
            && InnermostLoop(loop, [1, 1, 0, 0], WRONG_LOOPS) && !NoLoopBefore(loop, [1, 1, 0, 0], WRONG_LOOPS)
    ensures Has(WrongLoop(), [0, 1, 1, 0, 0]) && NodeAt(WrongLoop(), [0, 1, 1, 0, 0]).kind == Continues(None)
    ensures LastLoop(WayTo(WrongLoop(), [0, 1, 1, 0, 0], []), WRONG_LOOPS) == Some(5)
  {
    Positions();
    var body := WrongLoop().children[0].children[1];
    LoopWithGoLeaves(5, WRONG_LOOPS);
    assert !NoLoopBefore(body, [1, 0, 0], WRONG_LOOPS) by { assert LeavesLoop(body.children[0], WRONG_LOOPS); }
    WayToTheContinue();
    LoopOfContinue();
  }

  lemma LoopOfContinue()
    ensures LastLoop([0, 1, 4, 5, 8, 9, 10], WRONG_LOOPS) == Some(5)
  {
    LoopFound([0, 1, 4], 5, [8, 9, 10], WRONG_LOOPS);
    assert [0, 1, 4, 5, 8, 9, 10] == [0, 1, 4] + [5] + [8, 9, 10];
  }

  /** So it is on record without a post statement. */
  lemma RecordOfWrongLoop()
    ensures Walk(NOTHING, WrongLoop(), [], WRONG_LOOPS, false) ==
              Record(RECEIVED.(continueStmts := [ContinueStmt(None, [0, 1, 4, 5, 8, 9, 10])]), -1)
  {
    hide Walk, WalkAll;
    var r := Record(RECEIVED, 0);
    WalkTwo(r, LoopWithGo(5), BranchWithContinue(8, None), [0, 1, 4], WRONG_LOOPS, true);
    WalkGo(r, 5, [0, 1, 4], WRONG_LOOPS);
    LoopWithGoLeaves(5, WRONG_LOOPS);
    LeavesOne(LoopWithGo(5), [0, 1, 4]);
    assert [0, 1, 4] + [5] == [0, 1, 4, 5] && [0, 1, 4, 5] + [8, 9, 10] == [0, 1, 4, 5, 8, 9, 10];
    WalkBranch(r, 8, None, [0, 1, 4, 5], WRONG_LOOPS);
    LoopOfContinue();
    WalkMain([LoopWithGo(5), BranchWithContinue(8, None)], WRONG_LOOPS);
  }

  /** The finished analysis marks the post statement, but neither the continue nor the if statement around it. */
  lemma UnmarkedContinue()
    ensures var fi := Walk(NOTHING, WrongLoop(), [], WRONG_LOOPS, false).fi;
            var t := ControlPass([fi], fi);
            t == fi && 2 in t.blocking && 10 !in t.blocking && 8 !in t.flattened
  {
    RecordOfWrongLoop();
  }

  /** What `if x { for { go f(); ... go f() } }` leaves depends on the number of go statements. */
  function BranchWithLoop(gos: seq<Tree>): Tree {
    Tree(10, Plain, [Tree(11, Plain, [Tree(12, Plain, [Tree(13, Plain, gos)])])])
  }

  /** With one go statement nothing but the if statement is left; with three the loop inside it is. */
  lemma GoesInABranch(loops: Loops)
    requires loops.Keys == {0, 12}
    ensures !LeavesLoop(BranchWithLoop([Go(14)]), loops)
    ensures LeavesLoop(BranchWithLoop([Go(14), Go(15), Go(16)]), loops)
  {
    BranchLeaves([Go(14)], loops);
    BranchLeaves([Go(14), Go(15), Go(16)], loops);
    Single(Go(14), [], 0, loops);
    var three := [Go(14), Go(15), Go(16)];
    assert three[..2] == [Go(14), Go(15)] && [Go(14), Go(15)][..1] == [Go(14)];
    assert UnpoppedAll([Go(14), Go(15)]) == 2 && UnpoppedAll(three) == 3;
  }

  lemma BranchLeaves(gos: seq<Tree>, loops: Loops)
    requires loops.Keys == {0, 12}
    ensures LeavesLoop(BranchWithLoop(gos), loops)
            <==> UnpoppedAll(gos) > 2
  {
    var body := Tree(13, Plain, gos);
    var loop := Tree(12, Plain, [body]);
    var block := Tree(11, Plain, [loop]);
    var n := UnpoppedAll(gos);
    Single(body, [], 0, loops);
    Single(loop, [], 0, loops);
    Single(block, [], 0, loops);
    if n > 0 { Single(block, [], n - 1, loops); }
    if n > 1 { Single(loop, [], n - 2, loops); }
  }

  /** `for ; ; func() {}() { if x { continue } }`, the call of the literal leaving nodes id and id + 1. */
  function LoopWithLiteral(id: Node): Tree {
    Tree(id, Plain, [Tree(id + 1, Plain, [Tree(id + 2, CallsLiteral(0, false), [Tree(id + 3, Literal, [])])]),
                     Tree(id + 4, Plain, [BranchWithContinue(id + 5, None)])])
  }

  lemma LiteralLeaves(id: Node, stack: Path)
    ensures var post := LoopWithLiteral(id).children[0];
            Unpopped(post) == 2 && After(post, stack) == stack + [id + 1, id + 2]
  {
    var lit := Tree(id + 3, Literal, []);
    var call := Tree(id + 2, CallsLiteral(0, false), [lit]);
    var s := stack + [id + 1];
    Single(lit, s + [id + 2], 0, map[]);
    Single(call, s, 0, map[]);
    LeavesOne(lit, s + [id + 2]);
    assert After(call, s) == s + [id + 2] + [id + 3];
    assert (s + [id + 2] + [id + 3])[..|s| + 1] == s + [id + 2] == stack + [id + 1, id + 2];
  }

  lemma BranchLeavesNothing(id: Node, target: Option<Node>)
    ensures Unpopped(BranchWithContinue(id, target)) == 0
  {
    var c := Tree(id + 2, Continues(target), []);
    Single(c, [], 0, map[]);
    Single(Tree(id + 1, Plain, [c]), [], 0, map[]);
  }

  lemma LoopWithLiteralLeaves(id: Node, stack: Path)
    ensures After(LoopWithLiteral(id), stack) == stack + [id, id + 1]
    ensures Has(LoopWithLiteral(id), [1, 0, 0, 0])
    ensures WayTo(LoopWithLiteral(id), [1, 0, 0, 0], stack) == stack
            + [id, id + 1, id + 2, id + 4, id + 5, id + 6, id + 7]
    ensures NodeAt(LoopWithLiteral(id), [1, 0, 0, 0]).kind == Continues(None)
  {
    var t := LoopWithLiteral(id);
    var post, body := t.children[0], t.children[1];
    var branch := BranchWithContinue(id + 5, None);
    var s := stack + [id];
    var u := s + [id + 1, id + 2];
    LiteralLeaves(id, s);
    BranchLeavesNothing(id + 5, None);
    Single(branch, u + [id + 4], 0, map[]);
    LeavesNone(body, u);
    assert t.children[..1] == [post];
    Single(post, s, 0, map[]);
    assert AfterAll(t.children, s) == After(body, AfterAll([post], s)) == u;
    assert u[..|u| - 1] == stack + [id, id + 1];
    assert [1, 0, 0, 0][1..] == [0, 0, 0] && [0, 0, 0][1..] == [0, 0];
    WayInBranch(id + 5, None, u + [id + 4]);
    assert body.children[..0] == [] && AfterAll([], u + [id + 4]) == u + [id + 4];
    assert Has(body, [0, 0, 0]);
    OneStep(body, [0, 0, 0], u);
    OneStep(t, [1, 0, 0, 0], stack);
  }

  // ----- a continue that the last pass misses -----

  /** `func main() { for ; ; <-c { for ; ; func() {}() { if x { continue } }; if y { continue outer } } }` */
  function Missing(): Tree {
    Main([LoopWithLiteral(5), BranchWithContinue(13, Some(1))])
  }

  const MISSED_LOOPS: Loops := map[1 := ForLoop(Some(2)), 5 := ForLoop(Some(6))]
  const FIRST := ContinueStmt(Some(6), [0, 1, 4, 5, 6, 7, 9, 10, 11, 12])
  const SECOND := ContinueStmt(Some(2), [0, 1, 4, 5, 6, 13, 14, 15])

  function CalledLiteral(fi: FuncInfo, path: Path): FuncInfo {
    fi.(litCallees := fi.litCallees[0 := path])
  }

  lemma WalkLiteralPost(r: Record, id: Node, stack: Path, loops: Loops)
    ensures Walk(r, LoopWithLiteral(id).children[0], stack, loops, true) ==
              r.(fi := CalledLiteral(r.fi, stack + [id + 1, id + 2, id + 3]))
  {
    hide Walk, WalkAll;
    var post := LoopWithLiteral(id).children[0];
    var call := post.children[0];
    var lit := call.children[0];
    var u := stack + [id + 1] + [id + 2];
    WalkPlain(r, post, stack, loops, true);
    WalkOne(r, call, stack + [id + 1], loops, true);
    WalkCall(r, call, stack + [id + 1], loops, true);
    WalkOne(r, lit, u, loops, true);
    WalkPlain(r, lit, u, loops, true);
    WalkNone(r, u + [id + 3], loops, true);
    Single(lit, u, 0, loops);
    LeavesOne(lit, u);
    assert u + [id + 3] == stack + [id + 1, id + 2, id + 3];
  }

  lemma WalkLiteralLoop(r: Record, id: Node, stack: Path, loops: Loops)
    ensures Walk(r, LoopWithLiteral(id), stack, loops, true) ==
              r.(fi := NoteNode(CalledLiteral(r.fi, stack + [id] + [id + 1, id + 2, id + 3]), Continues(None),
                                stack + [id] + [id + 1, id + 2] + [id + 4] + [id + 5, id + 6, id + 7], loops))
  {
    hide Walk, WalkAll, NoteNode, After;
    var t := LoopWithLiteral(id);
    var post, body := t.children[0], t.children[1];
    var s := stack + [id];
    var u := s + [id + 1, id + 2];
    WalkPlain(r, t, stack, loops, true);
    WalkTwo(r, post, body, s, loops, true);
    WalkLiteralPost(r, id, s, loops);
    LiteralLeaves(id, s);
    var q := r.(fi := CalledLiteral(r.fi, s + [id + 1, id + 2, id + 3]));
    WalkPlain(q, body, u, loops, true);
    WalkOne(q, BranchWithContinue(id + 5, None), u + [id + 4], loops, true);
    WalkBranch(q, id + 5, None, u + [id + 4], loops);
  }

  lemma LoopsOfMissing()
    ensures [0, 1, 4] + [5] + [6, 7] + [9] + [10, 11, 12] == FIRST.path
    ensures ContinuesOf(None, FIRST.path, MISSED_LOOPS) == [FIRST]
    ensures [0, 1, 4] + [5, 6] + [13, 14, 15] == SECOND.path
    ensures ContinuesOf(Some(1), SECOND.path, MISSED_LOOPS) == [SECOND]
  {
    LoopFound([0, 1, 4], 5, [6, 7, 9, 10, 11, 12], MISSED_LOOPS);
    assert [0, 1, 4] + [5] + [6, 7, 9, 10, 11, 12] == FIRST.path;
  }

  /** Both continues are on record, with their own loops and in the order of the source. */
  lemma RecordOfMissing()
    ensures Walk(NOTHING, Missing(), [], MISSED_LOOPS, false) ==
              Record(RECEIVED.(litCallees := map[0 := [0, 1, 4, 5, 6, 7, 8]], continueStmts := [FIRST, SECOND]), -1)
  {
    hide Walk, WalkAll, ContinuesOf, After;
    var r := Record(RECEIVED, 0);
    var lit := [0, 1, 4, 5, 6, 7, 8];
    LoopsOfMissing();
    assert [0, 1, 4] + [5] + [6, 7, 8] == lit;
    WalkTwo(r, LoopWithLiteral(5), BranchWithContinue(13, Some(1)), [0, 1, 4], MISSED_LOOPS, true);
    WalkLiteralLoop(r, 5, [0, 1, 4], MISSED_LOOPS);
    LoopWithLiteralLeaves(5, [0, 1, 4]);
    var q := Record(RECEIVED.(litCallees := map[0 := lit], continueStmts := [FIRST]), 0);
    assert Walk(r, LoopWithLiteral(5), [0, 1, 4], MISSED_LOOPS, true) == q;
    WalkBranch(q, 13, Some(1), [0, 1, 4] + [5, 6], MISSED_LOOPS);
    WalkMain([LoopWithLiteral(5), BranchWithContinue(13, Some(1))], MISSED_LOOPS);
  }

  /** Function 0 is the literal, which blocks nowhere: the rounds have nothing to do.  The last pass comes to the
      first continue before the second one marks its post statement, the statement with the call of the literal. */
  lemma AContinueIsMissed()
    ensures var fi := Walk(NOTHING, Missing(), [], MISSED_LOOPS, false).fi;
            var t := ControlPass([NOTHING.fi, fi], fi);
            && Propagated([NOTHING.fi, fi], [NOTHING.fi, fi]) && fi.continueStmts == [FIRST, SECOND]
            && ContinueBlocks(t, FIRST) && !MarkedInTurn(fi.blocking, fi.continueStmts, 0)
            && SECOND.path[|SECOND.path| - 1] in t.blocking && FIRST.path[|FIRST.path| - 1] !in t.blocking
  {
    RecordOfMissing();
    var fi := Walk(NOTHING, Missing(), [], MISSED_LOOPS, false).fi;
    hide Walk;
    NothingToDo(fi);
    MissedInPass(fi);
  }

  lemma MissedInPass(fi: FuncInfo)
    requires fi.blocking == {0, 1, 2, 3} && fi.returnStmts == [] && fi.continueStmts == [FIRST, SECOND]
    ensures var t := ContinuePass(fi, fi.continueStmts);
            && ContinueBlocks(t, FIRST) && !MarkedInTurn(fi.blocking, fi.continueStmts, 0)
            && 15 in t.blocking && 12 !in t.blocking
  {
    hide ContinuePass, MarkedInTurn;
    var cs := fi.continueStmts;
    ContinuePassIs(fi, cs);
    TurnsOfMissing(fi);
    assert cs[1].path[4] == 6 && cs[1].path[7] == 15;
    assert ContinueMarks(fi.blocking, cs, 6) && ContinueMarks(fi.blocking, cs, 15);
    assert 12 !in cs[1].path;
    assert !ContinueMarks(fi.blocking, cs, 12);
  }

  lemma TurnsOfMissing(fi: FuncInfo)
    requires fi.blocking == {0, 1, 2, 3}
    ensures !MarkedInTurn(fi.blocking, [FIRST, SECOND], 0) && MarkedInTurn(fi.blocking, [FIRST, SECOND], 1)
  { }

  lemma NothingToDo(fi: FuncInfo)
    requires fi.blocking != {} && fi.instCallees == map[] && fi.litCallees.Keys == {0}
    ensures Propagated([NOTHING.fi, fi], [NOTHING.fi, fi])
  {
    var fs := [NOTHING.fi, fi];
    assert Chain(fs, 1, []) && IsBlocking(fi);
    forall chain | Chain(fs, 0, chain) ensures chain == [] { }
    assert !MayBlock(fs, 0);
  }
}
