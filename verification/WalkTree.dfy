/** The nodes of a function as the visitor of compiler/internal/analysis/info.go walks them, and what is
    on its stack at each of them. */
module WalkTree {
  import opened Analysis

  datatype Callee = Func(g: Fn, interfaceMethod: bool) | Var | Other

  /** What a node is to Visit.  A deferred call is a call with `deferredCall`. */
  datatype Kind =
    | Plain
    | Blocks(deferredCall: bool)
    | CallsNamed(callee: Callee, deferredCall: bool)
    | CallsLiteral(g: Fn, deferredCall: bool)
    | GoStatement
    | SelectClause
    | Literal
    | Jumps
    | Continues(target: Option<Node>)
    | Returns

  /** Visit returns the visitor itself, so that ast.Walk goes on with the children and calls Visit with
      nil after them, which takes one node off the stack.  At a go statement, a select clause and a call
      of a literal it walks the children by its own calls and returns nil; the inside of a function
      literal belongs to another visitor. */
  predicate Popped(kind: Kind) {
    !kind.GoStatement? && !kind.SelectClause? && !kind.CallsLiteral? && !kind.Literal?
  }

  datatype Tree = Tree(id: Node, kind: Kind, children: seq<Tree>)

  /** A for statement with its post statement, or a range statement. */
  datatype Loop = ForLoop(post: Option<Node>) | RangeLoop

  type Loops = map<Node, Loop>

  predicate TreeOk(t: Tree, n: nat, parent: map<Node, Node>, loops: Loops, inLoop: bool) {
    && (t.kind.CallsNamed? && t.kind.callee.Func? ==> t.kind.callee.g < n)
    && (t.kind.CallsLiteral? ==> t.kind.g < n)
    && (t.kind.Literal? ==> t.children == [])
    && (t.kind.Continues? ==> if t.kind.target.Some? then t.kind.target.value in loops else inLoop)
    && forall i | 0 <= i < |t.children| ::
         && t.children[i].id in parent && parent[t.children[i].id] == t.id
         && TreeOk(t.children[i], n, parent, loops, inLoop || t.id in loops)
  }

  // ----- the stack -----

  /** The stack after a node, and after nodes one after the other. */
  function After(t: Tree, stack: Path): Path
    decreases t, 0
  {
    var inner := AfterAll(t.children, stack + [t.id]);
    if Popped(t.kind) && inner != [] then inner[..|inner| - 1] else inner
  }

  function AfterAll(ts: seq<Tree>, stack: Path): Path
    decreases ts, 1
  {
    if ts == [] then stack else After(ts[|ts| - 1], AfterAll(ts[..|ts| - 1], stack))
  }

  /** Exactly these nodes stay on the stack behind their children. */
  lemma LeftOnStack(t: Tree, stack: Path)
    ensures var inner, left := AfterAll(t.children, stack + [t.id]),
              t.kind.GoStatement? || t.kind.SelectClause? || t.kind.CallsLiteral? || t.kind.Literal?;
            inner != [] && After(t, stack) == (if left then inner else inner[..|inner| - 1])
  {
    StacksGrow(t.children, stack + [t.id]);
  }

  /** The nodes of a tree that nobody takes off. */
  function Unpopped(t: Tree): nat
    decreases t, 0
  {
    (if Popped(t.kind) then 0 else 1) + UnpoppedAll(t.children)
  }

  function UnpoppedAll(ts: seq<Tree>): nat
    decreases ts, 1
  {
    if ts == [] then 0 else UnpoppedAll(ts[..|ts| - 1]) + Unpopped(ts[|ts| - 1])
  }

  /** A walk leaves the stack as it was, with one node more for each one that is not popped. */
  lemma {:induction false} StackGrows(t: Tree, stack: Path)
    ensures stack <= After(t, stack) && |After(t, stack)| == |stack| + Unpopped(t)
    decreases t, 0
  {
    StacksGrow(t.children, stack + [t.id]);
    var inner := AfterAll(t.children, stack + [t.id]);
    assert inner[..|stack|] == (stack + [t.id])[..|stack|] == stack;
  }

  lemma {:induction false} StacksGrow(ts: seq<Tree>, stack: Path)
    ensures stack <= AfterAll(ts, stack) && |AfterAll(ts, stack)| == |stack| + UnpoppedAll(ts)
    decreases ts, 1
  {
    if ts != [] {
      StacksGrow(ts[..|ts| - 1], stack);
      StackGrows(ts[|ts| - 1], AfterAll(ts[..|ts| - 1], stack));
    }
  }

  /** What a node leaves on the stack does not depend on the stack. */
  lemma {:induction false} AfterIs(t: Tree, stack: Path)
    ensures After(t, stack) == stack + After(t, [])
    decreases t, 0
  {
    AfterAllIs(t.children, stack + [t.id]);
    AfterAllIs(t.children, [] + [t.id]);
    var rest := AfterAll(t.children, []);
    assert stack + [t.id] + rest == stack + ([t.id] + rest);
    assert [] + [t.id] == [t.id];
  }

  lemma {:induction false} AfterAllIs(ts: seq<Tree>, stack: Path)
    ensures AfterAll(ts, stack) == stack + AfterAll(ts, [])
    decreases ts, 1
  {
    if ts != [] {
      var front, last := ts[..|ts| - 1], ts[|ts| - 1];
      AfterAllIs(front, stack);
      AfterIs(last, AfterAll(front, stack));
      AfterIs(last, AfterAll(front, []));
      assert stack + AfterAll(front, []) + After(last, []) == stack + (AfterAll(front, []) + After(last, []));
    }
  }

  // ----- which nodes are left -----

  /** One of the first k nodes of a tree, in the order of the walk, that can be left is a loop. */
  predicate LoopAmong(t: Tree, k: nat, loops: Loops)
    decreases t, 0
  {
    k > 0 && (t.id in loops || LoopAmongAll(t.children, k - 1, loops))
  }

  predicate LoopAmongAll(ts: seq<Tree>, k: nat, loops: Loops)
    decreases ts, 1
  {
    ts != [] &&
    var before := UnpoppedAll(ts[..|ts| - 1]);
    var n := Unpopped(ts[|ts| - 1]);
    || LoopAmongAll(ts[..|ts| - 1], if k < before then k else before, loops)
    || (k > before && LoopAmong(ts[|ts| - 1], if k - before < n then k - before else n, loops))
  }

  /** A tree with k nodes that are not popped leaves its first k nodes, as far as they are left inside
      it: here, one of them is a loop. */
  predicate LeavesLoop(t: Tree, loops: Loops) {
    LoopAmong(t, Unpopped(t), loops)
  }

  predicate NoLoop(stack: Path, loops: Loops) {
    forall k | k in stack :: k !in loops
  }

  /** The condition on the tree is what happens on the stack. */
  lemma {:induction false} LoopAmongIs(t: Tree, k: nat, loops: Loops)
    requires k <= 1 + UnpoppedAll(t.children)
    ensures var inner := [t.id] + AfterAll(t.children, []);
            |inner| == 1 + UnpoppedAll(t.children) && (LoopAmong(t, k, loops) <==> !NoLoop(inner[..k], loops))
    decreases t, 0
  {
    StacksGrow(t.children, []);
    var rest := AfterAll(t.children, []);
    if k > 0 {
      LoopAmongAllIs(t.children, k - 1, loops);
      assert ([t.id] + rest)[..k] == [t.id] + rest[..k - 1];
      NoLoopParts([t.id], rest[..k - 1], loops);
    }
  }

  lemma {:induction false} LoopAmongAllIs(ts: seq<Tree>, k: nat, loops: Loops)
    requires k <= UnpoppedAll(ts)
    ensures |AfterAll(ts, [])| == UnpoppedAll(ts)
    ensures LoopAmongAll(ts, k, loops) <==> !NoLoop(AfterAll(ts, [])[..k], loops)
    decreases ts, 1
  {
    StacksGrow(ts, []);
    if ts != [] {
      var front, last := ts[..|ts| - 1], ts[|ts| - 1];
      var a, b := AfterAll(front, []), After(last, []);
      StacksGrow(front, []);
      AfterIs(last, a);
      StackGrows(last, []);
      var before := UnpoppedAll(front);
      if k <= before {
        LoopAmongAllIs(front, k, loops);
        assert (a + b)[..k] == a[..k];
      } else {
        LoopAmongAllIs(front, before, loops);
        LeftIs(last, k - before, loops);
        assert a[..before] == a && (a + b)[..k] == a + b[..k - before];
        NoLoopParts(a, b[..k - before], loops);
      }
    }
  }

  lemma {:induction false} LeftIs(t: Tree, k: nat, loops: Loops)
    requires k <= Unpopped(t)
    ensures |After(t, [])| == Unpopped(t) && (LoopAmong(t, k, loops) <==> !NoLoop(After(t, [])[..k], loops))
    decreases t, 1
  {
    LoopAmongIs(t, k, loops);
    StackGrows(t, []);
    AfterAllIs(t.children, [] + [t.id]);
    var inner := [t.id] + AfterAll(t.children, []);
    assert [] + [t.id] == [t.id];
    assert After(t, []) == inner[..Unpopped(t)];
    assert inner[..Unpopped(t)][..k] == inner[..k];
  }

  lemma NoLoopParts(a: Path, b: Path, loops: Loops)
    ensures NoLoop(a + b, loops) <==> NoLoop(a, loops) && NoLoop(b, loops)
  {
    if NoLoop(a + b, loops) {
      forall k | k in a || k in b ensures k !in loops { assert k in a + b; }
    }
  }

  /** A tree leaves a loop on the stack if and only if LeavesLoop says so. */
  lemma LeavesLoopIs(t: Tree, loops: Loops)
    ensures LeavesLoop(t, loops) <==> !NoLoop(After(t, []), loops)
  {
    LeftIs(t, Unpopped(t), loops);
    assert After(t, [])[..Unpopped(t)] == After(t, []);
  }

  // ----- the way to a node -----

  /** `at` is the position of a node: the child to go to, level by level. */
  predicate Has(t: Tree, at: seq<nat>)
    decreases |at|
  {
    at == [] || (at[0] < |t.children| && Has(t.children[at[0]], at[1..]))
  }

  function NodeAt(t: Tree, at: seq<nat>): Tree
    requires Has(t, at)
    decreases |at|
  {
    if at == [] then t else NodeAt(t.children[at[0]], at[1..])
  }

  /** The stack when the walk has come to the node. */
  function WayTo(t: Tree, at: seq<nat>, stack: Path): Path
    requires Has(t, at)
    decreases |at|
  {
    if at == [] then stack + [t.id]
    else WayTo(t.children[at[0]], at[1..], AfterAll(t.children[..at[0]], stack + [t.id]))
  }

  /** The node with its ancestors, the root first. */
  function Ancestors(t: Tree, at: seq<nat>): Path
    requires Has(t, at)
    decreases |at|
  {
    [t.id] + if at == [] then [] else Ancestors(t.children[at[0]], at[1..])
  }

  /** Every node before the way to `at`, below no node of it, is popped. */
  predicate AllPoppedBefore(t: Tree, at: seq<nat>)
    requires Has(t, at)
    decreases |at|
  {
    at != [] ==> UnpoppedAll(t.children[..at[0]]) == 0 && AllPoppedBefore(t.children[at[0]], at[1..])
  }

  /** No subtree before the way to `at`, on any level, leaves a loop. */
  predicate NoLoopBefore(t: Tree, at: seq<nat>, loops: Loops)
    requires Has(t, at)
    decreases |at|
  {
    at != [] ==> (forall j | 0 <= j < at[0] :: !LeavesLoop(t.children[j], loops))
                 && NoLoopBefore(t.children[at[0]], at[1..], loops)
  }

  /** All ancestors are on the way, in their order. */
  lemma {:induction false} AncestorsOnWay(t: Tree, at: seq<nat>, stack: Path)
    requires Has(t, at)
    ensures stack <= WayTo(t, at, stack) && |WayTo(t, at, stack)| >= |stack| + |Ancestors(t, at)|
    ensures forall n | n in Ancestors(t, at) :: n in WayTo(t, at, stack)
    decreases |at|
  {
    if at != [] {
      var s := AfterAll(t.children[..at[0]], stack + [t.id]);
      StacksGrow(t.children[..at[0]], stack + [t.id]);
      AncestorsOnWay(t.children[at[0]], at[1..], s);
      var way := WayTo(t, at, stack);
      assert way[..|stack| + 1] == s[..|stack| + 1] == stack + [t.id];
      assert way[..|stack|] == stack && way[|stack|] == t.id;
    }
  }

  /** A node is marked with its ancestors alone if and only if everything before it was popped. */
  lemma {:induction false} OnlyAncestors(t: Tree, at: seq<nat>, stack: Path)
    requires Has(t, at)
    ensures WayTo(t, at, stack) == stack + Ancestors(t, at) <==> AllPoppedBefore(t, at)
    decreases |at|
  {
    if at != [] {
      var front, next := t.children[..at[0]], t.children[at[0]];
      var s := AfterAll(front, stack + [t.id]);
      StacksGrow(front, stack + [t.id]);
      OnlyAncestors(next, at[1..], s);
      AncestorsOnWay(next, at[1..], s);
      assert stack + [t.id] + Ancestors(next, at[1..]) == stack + Ancestors(t, at);
      if UnpoppedAll(front) == 0 {
        assert s == stack + [t.id];
      }
    }
  }

  // ----- the loop of a continue -----

  /** FindLoopStmt for a continue without a label: the last loop on the stack. */
  function LastLoop(stack: Path, loops: Loops): Option<Node> {
    if stack == [] then None
    else if stack[|stack| - 1] in loops then Some(stack[|stack| - 1]) else LastLoop(stack[..|stack| - 1], loops)
  }

  predicate HasLoop(stack: Path, loops: Loops) {
    exists k | k in stack :: k in loops
  }

  /** It is the given one of the loops on the stack if and only if no loop is above that. */
  lemma {:induction false} LoopFound(below: Path, loop: Node, above: Path, loops: Loops)
    requires loop in loops && loop !in above
    ensures LastLoop(below + [loop] + above, loops) == Some(loop) <==> NoLoop(above, loops)
    decreases |above|
  {
    var stack := below + [loop] + above;
    if above == [] {
      assert stack == below + [loop];
    } else {
      var last := above[|above| - 1];
      assert stack[|stack| - 1] == last && last in above;
      assert stack[..|stack| - 1] == below + [loop] + above[..|above| - 1];
      assert above == above[..|above| - 1] + [last];
      LoopFound(below, loop, above[..|above| - 1], loops);
    }
  }

  predicate Occurs(n: Node, t: Tree) {
    n == t.id || exists i | 0 <= i < |t.children| :: Occurs(n, t.children[i])
  }

  /** The way from the loop to `at` meets no other loop. */
  predicate InnermostLoop(t: Tree, at: seq<nat>, loops: Loops)
    requires Has(t, at)
    decreases |at|
  {
    at != [] ==> t.children[at[0]].id !in loops && InnermostLoop(t.children[at[0]], at[1..], loops)
  }

  /** What is on the stack between a node and the continue at `at` inside it. */
  function Between(t: Tree, at: seq<nat>): Path
    requires Has(t, at)
    decreases |at|
  {
    if at == [] then []
    else AfterAll(t.children[..at[0]], []) + [t.children[at[0]].id] + Between(t.children[at[0]], at[1..])
  }

  lemma {:induction false} WayIs(t: Tree, at: seq<nat>, stack: Path)
    requires Has(t, at)
    ensures WayTo(t, at, stack) == stack + [t.id] + Between(t, at)
    decreases |at|
  {
    if at != [] {
      var front, next := t.children[..at[0]], t.children[at[0]];
      AfterAllIs(front, stack + [t.id]);
      WayIs(next, at[1..], AfterAll(front, stack + [t.id]));
      var a, b := AfterAll(front, []), Between(next, at[1..]);
      assert stack + [t.id] + a + [next.id] + b == stack + [t.id] + (a + [next.id] + b);
    }
  }

  lemma {:induction false} NoLoopLeft(ts: seq<Tree>, loops: Loops)
    ensures NoLoop(AfterAll(ts, []), loops) <==> forall j | 0 <= j < |ts| :: !LeavesLoop(ts[j], loops)
    decreases |ts|
  {
    if ts != [] {
      var front, last := ts[..|ts| - 1], ts[|ts| - 1];
      NoLoopLeft(front, loops);
      AfterIs(last, AfterAll(front, []));
      LeavesLoopIs(last, loops);
      NoLoopParts(AfterAll(front, []), After(last, []), loops);
      assert forall j | 0 <= j < |front| :: front[j] == ts[j];
    }
  }

  lemma {:induction false} NoLoopBetween(t: Tree, at: seq<nat>, loops: Loops)
    requires Has(t, at) && InnermostLoop(t, at, loops)
    ensures NoLoop(Between(t, at), loops) <==> NoLoopBefore(t, at, loops)
    decreases |at|
  {
    if at != [] {
      var front, next := t.children[..at[0]], t.children[at[0]];
      NoLoopLeft(front, loops);
      assert forall j | 0 <= j < |front| :: front[j] == t.children[j];
      NoLoopBetween(next, at[1..], loops);
      NoLoopParts(AfterAll(front, []) + [next.id], Between(next, at[1..]), loops);
      NoLoopParts(AfterAll(front, []), [next.id], loops);
    }
  }

  /** Only nodes of the trees are left. */
  lemma {:induction false} LeftOccurs(t: Tree, n: Node)
    requires n in After(t, [])
    ensures Occurs(n, t)
    decreases t, 0
  {
    AfterAllIs(t.children, [] + [t.id]);
    assert [] + [t.id] == [t.id];
    if n != t.id {
      assert n in AfterAll(t.children, []);
      var i := LeftOccursIn(t.children, n);
    }
  }

  lemma {:induction false} LeftOccursIn(ts: seq<Tree>, n: Node) returns (i: nat)
    requires n in AfterAll(ts, [])
    ensures i < |ts| && Occurs(n, ts[i])
    decreases ts, 1
  {
    var front, last := ts[..|ts| - 1], ts[|ts| - 1];
    AfterIs(last, AfterAll(front, []));
    if n in After(last, []) {
      LeftOccurs(last, n);
      i := |ts| - 1;
    } else {
      i := LeftOccursIn(front, n);
    }
  }

  lemma {:induction false} BetweenOccurs(t: Tree, at: seq<nat>, n: Node)
    requires Has(t, at) && n in Between(t, at)
    ensures exists i | 0 <= i < |t.children| :: Occurs(n, t.children[i])
    decreases |at|
  {
    var front, next := t.children[..at[0]], t.children[at[0]];
    if n in AfterAll(front, []) {
      var i := LeftOccursIn(front, n);
      assert Occurs(n, t.children[i]);
    } else if n == next.id {
      assert Occurs(n, t.children[at[0]]);
    } else {
      BetweenOccurs(next, at[1..], n);
      assert Occurs(n, t.children[at[0]]);
    }
  }

  /** A continue without a label is taken to continue its own loop if and only if no subtree that was walked
      since the loop began, and that the continue is not in, leaves a loop on the stack. */
  lemma ContinueFindsItsLoop(loop: Tree, at: seq<nat>, stack: Path, loops: Loops)
    requires Has(loop, at) && loop.id in loops && InnermostLoop(loop, at, loops)
    requires forall i | 0 <= i < |loop.children| :: !Occurs(loop.id, loop.children[i])
    ensures LastLoop(WayTo(loop, at, stack), loops) == Some(loop.id) <==> NoLoopBefore(loop, at, loops)
  {
    hide Occurs, InnermostLoop, NoLoopBefore, Between, WayTo;
    WayIs(loop, at, stack);
    if loop.id in Between(loop, at) { BetweenOccurs(loop, at, loop.id); }
    NoLoopBetween(loop, at, loops);
    LoopFound(stack, loop.id, Between(loop, at), loops);
  }

  // ----- in a whole function -----

  /** The innermost loop around a position. */
  function LoopAround(t: Tree, at: seq<nat>, loops: Loops, own: Option<Node>): Option<Node>
    requires Has(t, at)
    decreases |at|
  {
    if at == [] then own
    else LoopAround(t.children[at[0]], at[1..], loops, if t.id in loops then Some(t.id) else own)
  }

  /** The stack when the walk comes to a node is one on which the rest of the way goes on. */
  lemma {:induction false} WayGoesOn(t: Tree, a: seq<nat>, b: seq<nat>, stack: Path) returns (s: Path)
    requires Has(t, a) && Has(NodeAt(t, a), b)
    ensures Has(t, a + b) && NodeAt(t, a + b) == NodeAt(NodeAt(t, a), b)
    ensures WayTo(t, a + b, stack) == WayTo(NodeAt(t, a), b, s)
    decreases |a|
  {
    if a == [] {
      assert [] + b == b;
      s := stack;
    } else {
      assert (a + b)[1..] == a[1..] + b;
      s := WayGoesOn(t.children[a[0]], a[1..], b, AfterAll(t.children[..a[0]], stack + [t.id]));
    }
  }

  lemma {:induction false} LoopAroundStays(t: Tree, at: seq<nat>, loops: Loops, own: Option<Node>)
    requires Has(t, at) && at != [] && InnermostLoop(t, at, loops)
    ensures LoopAround(t, at, loops, own) == if t.id in loops then Some(t.id) else own
    decreases |at|
  {
    if |at| > 1 {
      LoopAroundStays(t.children[at[0]], at[1..], loops, if t.id in loops then Some(t.id) else own);
    }
  }

  lemma {:induction false} LoopAroundIs(t: Tree, a: seq<nat>, b: seq<nat>, loops: Loops, own: Option<Node>)
    requires Has(t, a) && Has(NodeAt(t, a), b) && b != []
    requires NodeAt(t, a).id in loops && InnermostLoop(NodeAt(t, a), b, loops)
    ensures Has(t, a + b) && LoopAround(t, a + b, loops, own) == Some(NodeAt(t, a).id)
    decreases |a|
  {
    if a == [] {
      assert [] + b == b;
      LoopAroundStays(t, b, loops, own);
    } else {
      assert (a + b)[1..] == a[1..] + b;
      LoopAroundIs(t.children[a[0]], a[1..], b, loops, if t.id in loops then Some(t.id) else own);
    }
  }

  /** In a function, a continue at b inside the loop at a is recorded with the innermost loop around it if and
      only if no subtree before it in that loop leaves a loop. */
  lemma RecordedWithItsLoop(root: Tree, a: seq<nat>, b: seq<nat>, loops: Loops)
    requires Has(root, a) && Has(NodeAt(root, a), b) && b != []
    requires NodeAt(root, a).id in loops && InnermostLoop(NodeAt(root, a), b, loops)
    requires forall i | 0 <= i < |NodeAt(root, a).children| :: !Occurs(NodeAt(root, a).id, NodeAt(root, a).children[i])
    ensures Has(root, a + b)
    ensures LastLoop(WayTo(root, a + b, []), loops) == LoopAround(root, a + b, loops, None)
            <==> NoLoopBefore(NodeAt(root, a), b, loops)
  {
    var s := WayGoesOn(root, a, b, []);
    LoopAroundIs(root, a, b, loops, None);
    ContinueFindsItsLoop(NodeAt(root, a), b, s, loops);
  }
}
