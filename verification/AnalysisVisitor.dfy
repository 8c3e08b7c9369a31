/** The visitor of compiler/internal/analysis/info.go, which records what blocks and what is called in a
    function while its body is walked. */
module AnalysisVisitor {
  import opened Analysis
  import opened WalkTree
  import opened WalkRecord

  /** One function while its body is walked.  `n` is the number of functions of the whole program,
      `parent` the tree of the function's nodes. */
  class FuncVisitor {
    const n: nat
    ghost const parent: map<Node, Node>
    const loops: Loops
    var fi: FuncInfo
    var visitorStack: Path
    var loopReturnIndex: int

    /** What the propagation later relies on: every call is recorded, and with all its ancestors. */
    ghost predicate Valid()
      reads this
    {
      && Recorded(fi, n) && DefersRecorded(fi) && RootPaths(parent, fi) && Closed(parent, fi)
      && (visitorStack != [] ==> RootPath(parent, visitorStack))
      && -1 <= loopReturnIndex <= |fi.returnStmts|
    }

    /** A declaration without a body may block. */
    constructor (n: nat, bodyless: Option<Node>, ghost parent: map<Node, Node>, loops: Loops)
      requires bodyless.Some? ==> bodyless.value !in parent
      ensures Valid() && this.n == n && this.parent == parent && this.loops == loops
      ensures visitorStack == [] && loopReturnIndex == -1
      ensures fi == FuncInfo(if bodyless.Some? then {bodyless.value} else {}, {}, map[], map[], [], [], [], false)
    {
      this.n, this.parent, this.loops, visitorStack, loopReturnIndex := n, parent, loops, [], -1;
      fi := FuncInfo(if bodyless.Some? then {bodyless.value} else {}, {}, map[], map[], [], [], [], false);
    }

    ghost function State(): Record
      reads this
    {
      Record(fi, loopReturnIndex)
    }

    /** Visit: the node goes on the stack. */
    method Enter(node: Node)
      requires Valid() && (node in parent ==> parent[node] in visitorStack)
      modifies this`visitorStack
      ensures Valid() && visitorStack == old(visitorStack) + [node]
    {
      assert forall i | 0 <= i < |visitorStack| :: (visitorStack + [node])[..i] == visitorStack[..i];
      assert (visitorStack + [node])[..|visitorStack|] == visitorStack;
      visitorStack := visitorStack + [node];
    }

    /** Visit with nil, which ast.Walk calls when the visitor has gone into a node: one node goes off. */
    method Leave()
      requires Valid()
      modifies this`visitorStack
      ensures Valid()
      ensures visitorStack == if old(visitorStack) == [] then [] else old(visitorStack)[..|old(visitorStack)| - 1]
    {
      if |visitorStack| != 0 {
        var rest := visitorStack[..|visitorStack| - 1];
        assert forall i | 0 <= i < |rest| :: rest[..i] == visitorStack[..i];
        visitorStack := rest;
      }
    }

    /** A node that may block by itself: a channel operation, a call of a value that is not known. */
    method Block(deferredCall: bool)
      requires Valid() && visitorStack != []
      modifies this`fi
      ensures Valid() && IsBlocking(fi) && fi == Blocked(old(fi), visitorStack, deferredCall)
    {
      assert visitorStack[0] in Nodes(visitorStack);
      MarkClosed(parent, fi, visitorStack);
      fi := Mark(fi, Nodes(visitorStack));
      if deferredCall { fi := fi.(deferStmts := fi.deferStmts + [BlockingDefer]); }
    }

    method CallToNamedFunc(callee: Callee, deferredCall: bool)
      requires Valid() && visitorStack != [] && (callee.Func? ==> callee.g < n)
      modifies this`fi
      ensures Valid() && fi == NoteNode(old(fi), CallsNamed(callee, deferredCall), visitorStack, loops)
    {
      match callee
      case Func(g, interfaceMethod) =>
        if interfaceMethod {
          Block(deferredCall);
        } else {
          var paths := if g in fi.instCallees then fi.instCallees[g] else [];
          paths := paths + [visitorStack];
          fi := fi.(instCallees := fi.instCallees[g := paths]);
          if deferredCall { fi := fi.(deferStmts := fi.deferStmts + [InstDefer(g)]); }
        }
      case Var => Block(deferredCall);
      case Other =>
    }

    method CallLiteral(g: Fn, deferredCall: bool)
      requires Valid() && visitorStack != [] && g < n
      modifies this`fi
      ensures Valid() && fi == NoteNode(old(fi), CallsLiteral(g, deferredCall), visitorStack, loops)
    {
      fi := fi.(litCallees := fi.litCallees[g := visitorStack]);
      if deferredCall { fi := fi.(deferStmts := fi.deferStmts + [LitDefer(g)]); }
    }

    /** A goto: its ancestors are flattened, not blocking. */
    method Goto()
      requires Valid() && visitorStack != []
      modifies this`fi
      ensures Valid() && fi == NoteNode(old(fi), Jumps, visitorStack, loops)
    {
      MarkClosed(parent, fi, visitorStack);
      fi := fi.(flattened := fi.flattened + Nodes(visitorStack), gotoLabel := true);
    }

    /** astutil.FindLoopStmt without a label. */
    method FindLoopStmt() returns (loop: Node)
      requires HasLoop(visitorStack, loops)
      ensures LastLoop(visitorStack, loops) == Some(loop) && loop in loops
    {
      var i: int := |visitorStack|;
      assert visitorStack[..i] == visitorStack;
      while visitorStack[i - 1] !in loops
        invariant 0 < i <= |visitorStack| && HasLoop(visitorStack[..i], loops)
        invariant LastLoop(visitorStack[..i], loops) == LastLoop(visitorStack, loops)
        decreases i
      {
        assert visitorStack[..i][..i - 1] == visitorStack[..i - 1];
        assert visitorStack[..i] == visitorStack[..i - 1] + [visitorStack[i - 1]];
        i := i - 1;
      }
      loop := visitorStack[i - 1];
    }

    /** A continue; `target` is the loop that its label names.  A range loop has no post statement. */
    method Continue(target: Option<Node>)
      requires Valid() && visitorStack != []
      requires if target.Some? then target.value in loops else HasLoop(visitorStack, loops)
      modifies this`fi
      ensures Valid() && fi == NoteNode(old(fi), Continues(target), visitorStack, loops)
      ensures LoopOf(target, visitorStack, loops).Some? && LoopOf(target, visitorStack, loops).value in loops
    {
      var loop;
      if target.Some? { loop := target.value; } else { loop := FindLoopStmt(); }
      match loops[loop]
      case ForLoop(post) => fi := fi.(continueStmts := fi.continueStmts + [ContinueStmt(post, visitorStack)]);
      case RangeLoop =>
    }

    method Return()
      requires Valid() && visitorStack != []
      modifies this`fi
      ensures Valid() && fi == NoteNode(old(fi), Returns, visitorStack, loops)
    {
      fi := fi.(returnStmts := fi.returnStmts + [ReturnStmt(visitorStack, fi.deferStmts)]);
    }

    /** ast.Walk: what is put on record is exactly the visits of the tree, and the stack is as it is left. */
    method Walk(t: Tree, ghost inLoop: bool)
      requires Valid() && TreeOk(t, n, parent, loops, inLoop)
      requires (t.id in parent ==> parent[t.id] in visitorStack) && (inLoop ==> HasLoop(visitorStack, loops))
      modifies this
      ensures Valid() && visitorStack == After(t, old(visitorStack)) && loopReturnIndex == old(loopReturnIndex)
      ensures State() == NoteAll(old(State()), Visits(t, old(visitorStack), loops, old(loopReturnIndex) >= 0), loops)
      decreases t, 2
    {
      hide After, Note;
      var topLoop := t.id in loops && loopReturnIndex < 0;
      ghost var before, s := State(), visitorStack;
      if topLoop { EnterLoop(); }
      ghost var entered := State();
      WalkNode(t, inLoop);
      ghost var vs := NodeVisits(t, s, loops, topLoop || entered.loopIndex >= 0);
      if topLoop {
        LeaveLoop();
        WrappedVisits(before, entered, State(), vs, loops);
      }
    }

    method WalkNode(t: Tree, ghost inLoop: bool)
      requires Valid() && TreeOk(t, n, parent, loops, inLoop)
      requires (t.id in parent ==> parent[t.id] in visitorStack) && (inLoop ==> HasLoop(visitorStack, loops))
      requires t.id in loops ==> loopReturnIndex >= 0
      modifies this
      ensures Valid() && visitorStack == After(t, old(visitorStack)) && loopReturnIndex == old(loopReturnIndex)
      ensures State() == NoteAll(old(State()), NodeVisits(t, old(visitorStack), loops, old(loopReturnIndex) >= 0),
                                 loops)
      decreases t, 1
    {
      hide NoteNode, Visits, VisitsAll, NoteAll, AfterAll, TreeOk;
      ghost var before := State();
      Enter(t.id);
      ghost var s := visitorStack;
      ghost var inside := VisitsAll(t.children, s, loops, loopReturnIndex >= 0);
      StacksGrow(t.children, s);
      if t.kind.CallsLiteral? {
        WalkChildren(t, inLoop);
        ghost var v := AtNode(t.kind, visitorStack);
        Happen(t, inLoop);
        NoteParts(before, inside, [v], loops);
        NoteOne(NoteAll(before, inside, loops), v, loops);
      } else {
        ghost var v := AtNode(t.kind, visitorStack);
        Happen(t, inLoop);
        NoteOne(before, v, loops);
        WalkChildren(t, inLoop);
        NoteParts(before, [v], inside, loops);
      }
      if Popped(t.kind) { Leave(); }
    }

    method WalkChildren(t: Tree, ghost inLoop: bool)
      requires Valid() && TreeOk(t, n, parent, loops, inLoop) && t.id in visitorStack
      requires inLoop ==> HasLoop(visitorStack, loops)
      requires t.id in loops ==> loopReturnIndex >= 0
      modifies this
      ensures Valid() && visitorStack == AfterAll(t.children, old(visitorStack))
              && loopReturnIndex == old(loopReturnIndex)
      ensures State() == NoteAll(old(State()), VisitsAll(t.children, old(visitorStack), loops, loopReturnIndex >= 0),
                                 loops)
      decreases t, 0
    {
      ghost var stack, before, index := visitorStack, State(), loopReturnIndex;
      hide NoteAll, Visits, After, VisitsAll, AfterAll;
      NoneYet(t.children, stack, loops, index >= 0);
      NothingNoted(before, loops);
      for i := 0 to |t.children|
        invariant Valid() && visitorStack == AfterAll(t.children[..i], stack) && loopReturnIndex == index
        invariant State() == NoteAll(before, VisitsAll(t.children[..i], stack, loops, index >= 0), loops)
      {
        StacksGrow(t.children[..i], stack);
        var c := t.children[i];
        Walk(c, inLoop || t.id in loops);
        AllButLast(t.children, i, stack, loops, index >= 0);
        NoteParts(before, VisitsAll(t.children[..i], stack, loops, index >= 0),
                  Visits(c, AfterAll(t.children[..i], stack), loops, index >= 0), loops);
      }
      assert t.children[..|t.children|] == t.children;
    }

    /** The cases of Visit and visitCallExpr. */
    method Happen(t: Tree, ghost inLoop: bool)
      requires Valid() && TreeOk(t, n, parent, loops, inLoop) && t.id in visitorStack
      requires inLoop ==> HasLoop(visitorStack, loops)
      modifies this`fi
      ensures Valid() && fi == NoteNode(old(fi), t.kind, visitorStack, loops)
    {
      match t.kind
      case Blocks(deferredCall) => Block(deferredCall);
      case CallsNamed(callee, deferredCall) => CallToNamedFunc(callee, deferredCall);
      case CallsLiteral(g, deferredCall) => CallLiteral(g, deferredCall);
      case Jumps => Goto();
      case Continues(target) => Continue(target);
      case Returns => Return();
      case _ =>
    }

    method EnterLoop()
      requires Valid() && loopReturnIndex < 0
      modifies this`loopReturnIndex
      ensures Valid() && loopReturnIndex >= 0 && State() == Note(old(State()), LoopBegins, loops)
    {
      loopReturnIndex := |fi.returnStmts|;
    }

    /** After a top-level loop, its returns are given every deferred call of the loop. */
    method LeaveLoop()
      requires Valid() && loopReturnIndex >= 0
      modifies this`fi, this`loopReturnIndex
      ensures Valid() && loopReturnIndex == -1 && State() == Note(old(State()), LoopEnds, loops)
    {
      ghost var was := fi;
      for i := loopReturnIndex to |fi.returnStmts|
        invariant loopReturnIndex == old(loopReturnIndex)
        invariant fi == was.(returnStmts := fi.returnStmts) && |fi.returnStmts| == |was.returnStmts|
        invariant forall k | 0 <= k < |fi.returnStmts| ::
                    fi.returnStmts[k] == if loopReturnIndex <= k < i
                        then was.returnStmts[k].(deferStmts := was.deferStmts)
                                         else was.returnStmts[k]
      {
        var r := fi.returnStmts[i].(deferStmts := fi.deferStmts);
        fi := fi.(returnStmts := fi.returnStmts[i := r]);
      }
      assert fi.returnStmts == WithDefers(was.returnStmts, loopReturnIndex, was.deferStmts);
      loopReturnIndex := -1;
    }
  }

  lemma WrappedVisits(before: Record, entered: Record, after: Record, vs: seq<Visit>, loops: Loops)
    requires entered == Note(before, LoopBegins, loops)
    requires after == Note(NoteAll(entered, vs, loops), LoopEnds, loops)
    ensures after == NoteAll(before, [LoopBegins] + vs + [LoopEnds], loops)
  {
    hide Note;
    NoteParts(before, [LoopBegins] + vs, [LoopEnds], loops);
    NoteParts(before, [LoopBegins], vs, loops);
    NoteOne(before, LoopBegins, loops);
    NoteOne(NoteAll(entered, vs, loops), LoopEnds, loops);
  }
}
