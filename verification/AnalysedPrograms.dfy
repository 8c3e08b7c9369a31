/** The analysis and the translation together: the marks of a finished analysis are what the translation
    relies on, provided that every continue was recorded with its own loop. */
module AnalysedPrograms {
  import A = Analysis
  import opened GoSource
  import opened Emitter
  import opened WalkTree
  import opened WalkRecord

  type Names = map<Name, A.Fn>

  /** The functions of the program by number, and the loops of one function. */
  datatype Unit = Unit(root: Tree, loops: Loops, names: Names, fi: A.FuncInfo)

  // ----- a statement as a node of the tree, with its flags -----

  /** A statement of which nothing but its stack matters: it may start a goroutine or make a closure. */
  predicate Quiet(t: Tree) {
    && (t.kind.Plain? || t.kind.GoStatement? || t.kind.Literal?)
    && forall i | 0 <= i < |t.children| :: Quiet(t.children[i])
  }

  predicate ShowsCall(u: Unit, t: Tree, f: Name, blocking: bool) {
    && t.children == [] && (blocking <==> t.id in u.fi.blocking)
    && t.kind == if f in u.names then CallsNamed(Callee.Func(u.names[f], false), false) else Blocks(false)
  }

  /** A node that is no loop. */
  predicate Inner(u: Unit, t: Tree) {
    t.kind.Plain? && t.id !in u.loops
  }

  /** The tree of a statement; `labels` has the enclosing loops by label, the innermost without one.  The
      flags of the statement are the marks of the analysis. */
  predicate Shows(u: Unit, t: Tree, s: Stmt, lab: Label, labels: map<Label, A.Node>)
    decreases s, 1
  {
    match s
    case Simple(_) => Quiet(t)
    case Call(_, f, _, blocking) => ShowsCall(u, t, f, blocking)
    case ShortCircuit(_, _, _, f, _, blocking) => ShowsCall(u, t, f, blocking)
    case Block(body) => Inner(u, t) && ShowsAll(u, t.children, body, labels)
    case If(cs, flat) => Inner(u, t) && (flat <==> t.id in u.fi.flattened) && ShowsClauses(u, t.children, cs, labels)
    case TypeSwitch(cs, flat) =>
      Inner(u, t) && (flat <==> t.id in u.fi.flattened) && ShowsClauses(u, t.children, cs, labels)
    case Switch(body, flat) =>
      && Inner(u, t) && (flat <==> t.id in u.fi.flattened)
      && |t.children| == 1 && ShowsBody(u, t.children[0], body, labels)
    case For(_, post, body, flat) =>
      && t.kind.Plain? && (flat <==> t.id in u.fi.flattened) && t.id in u.loops
      && var inner := labels[lab := t.id][None := t.id];
         if post.Nil? then
           u.loops[t.id] == ForLoop(A.None) && |t.children| == 1 && ShowsBody(u, t.children[0], body, inner)
         else
           && |t.children| == 2 && u.loops[t.id] == ForLoop(A.Some(t.children[0].id))
           && ShowsBody(u, t.children[0], post, inner) && ShowsBody(u, t.children[1], body, inner)
    case Break(_) => t.kind.Plain? && t.children == []
    case Continue(l, flat) =>
      && l in labels && t.children == [] && (flat <==> t.id in u.fi.blocking)
      && t.kind == Continues(if l.Some? then A.Some(labels[l]) else A.None)
    case Return(_) => t.kind.Returns? && t.children == []
    case Labeled(name, s') => Inner(u, t) && |t.children| == 1 && Shows(u, t.children[0], s', Some(name), labels)
  }

  predicate ShowsBody(u: Unit, t: Tree, ss: Stmts, labels: map<Label, A.Node>)
    decreases ss, 2
  {
    Inner(u, t) && ShowsAll(u, t.children, ss, labels)
  }

  predicate ShowsAll(u: Unit, ts: seq<Tree>, ss: Stmts, labels: map<Label, A.Node>)
    decreases ss, 1
  {
    match ss
    case Nil => ts == []
    case Cons(s, rest) => ts != [] && Shows(u, ts[0], s, None, labels) && ShowsAll(u, ts[1..], rest, labels)
  }

  /** Clauses are one after the other; in an if statement the rest of the chain may be one node. */
  predicate ShowsClauses(u: Unit, ts: seq<Tree>, cs: Clauses, labels: map<Label, A.Node>)
    decreases cs, 1
  {
    match cs
    case End => ts == []
    case Default(body) => |ts| == 1 && ShowsBody(u, ts[0], body, labels)
    case Clause(_, body, rest) =>
      && ts != [] && ShowsBody(u, ts[0], body, labels)
      && (ShowsClauses(u, ts[1..], rest, labels)
          || (|ts| == 2 && Inner(u, ts[1]) && ShowsClauses(u, ts[1].children, rest, labels)))
  }

  // ----- what the type checker grants -----

  predicate AtomsOnly(post: Stmts) {
    post.Cons? ==> IsAtom(post.head) && AtomsOnly(post.tail)
  }

  /** Jumps name an enclosing statement, labels are not reused inside, a post statement has no statements
      inside.  Nothing is said of flags. */
  predicate Typed(s: Stmt, lab: Label, cx: Scopes)
    decreases s, 1
  {
    match s
    case Block(body) => TypedAll(body, cx)
    case If(cs, _) => TypedClauses(cs, cx)
    case TypeSwitch(cs, _) => !cs.End? && Fresh(lab, cx) && TypedClauses(cs, SwitchScope(cx, lab))
    case Switch(body, _) => Fresh(lab, cx) && TypedAll(body, SwitchScope(cx, lab))
    case For(_, post, body, _) => AtomsOnly(post) && Fresh(lab, cx) && TypedAll(body, LoopScope(cx, lab, post))
    case Break(l) => l in cx && cx[l].canBreak
    case Continue(l, _) => l in cx && cx[l].isLoop
    case Labeled(name, s') => Typed(s', Some(name), cx)
    case _ => true
  }

  predicate TypedAll(ss: Stmts, cx: Scopes)
    decreases ss, 1
  {
    ss.Cons? ==> Typed(ss.head, None, cx) && TypedAll(ss.tail, cx)
  }

  predicate TypedClauses(cs: Clauses, cx: Scopes)
    decreases cs, 1
  {
    match cs
    case End => true
    case Default(body) => TypedAll(body, cx)
    case Clause(_, body, rest) => TypedAll(body, cx) && TypedClauses(rest, cx)
  }

  // ----- what the analysis gives -----

  /** A node that is marked marks its parent. */
  ghost predicate Up(root: Tree, marks: set<A.Node>) {
    forall at, i | Has(root, at) && 0 <= i < |NodeAt(root, at).children| ::
      NodeAt(root, at).children[i].id in marks ==> NodeAt(root, at).id in marks
  }

  /** Every continue without a label is recorded with the innermost loop around it. */
  ghost predicate OwnLoops(root: Tree, loops: Loops) {
    forall at | Has(root, at) && NodeAt(root, at).kind == Continues(A.None) ::
      LastLoop(WayTo(root, at, []), loops) == LoopAround(root, at, loops, A.None)
  }

  /** What a finished analysis gives for one function: `rounds` are the marks before the last pass. */
  ghost predicate Finished(u: Unit, rounds: set<A.Node>, mayBlock: set<A.Fn>) {
    && u.fi.flattened == u.fi.blocking && rounds <= u.fi.blocking && Up(u.root, u.fi.blocking) && Up(u.root, rounds)
    && (forall at | Has(u.root, at) ::
          var t := NodeAt(u.root, at);
          && (t.kind == Blocks(false) ==> t.id in rounds)
          && (t.kind.CallsNamed? && t.kind.callee.Func? && t.kind.callee.g in mayBlock ==> t.id in rounds)
          && (t.children == [] && (t.kind.Blocks? || t.kind.CallsNamed?) && t.id in u.fi.blocking ==> t.id in rounds)
          && (t.kind.Continues? ==> ContinueDue(u, at, rounds)))
  }

  /** The loop's post statement is in the set. */
  predicate PostIn(loops: Loops, l: A.Node, marks: set<A.Node>) {
    l in loops && loops[l].ForLoop? && loops[l].post.Some? && loops[l].post.value in marks
  }

  ghost predicate ContinueDue(u: Unit, at: seq<nat>, rounds: set<A.Node>)
    requires Has(u.root, at) && NodeAt(u.root, at).kind.Continues?
  {
    var t := NodeAt(u.root, at);
    var l := LoopOf(t.kind.target, WayTo(u.root, at, []), u.loops);
    (l.Some? && PostIn(u.loops, l.value, rounds)) ==> t.id in u.fi.blocking
  }

  // ----- positions -----

  lemma {:induction false} Below(t: Tree, at: seq<nat>, i: nat)
    requires Has(t, at) && i < |NodeAt(t, at).children|
    ensures Has(t, at + [i]) && NodeAt(t, at + [i]) == NodeAt(t, at).children[i]
    decreases |at|
  {
    if at == [] {
      assert [] + [i] == [i] && [i][1..] == [];
    } else {
      Below(t.children[at[0]], at[1..], i);
      assert (at + [i])[1..] == at[1..] + [i];
    }
  }

  lemma {:induction false} LoopBelow(t: Tree, at: seq<nat>, i: nat, loops: Loops, own: A.Option<A.Node>)
    requires Has(t, at) && i < |NodeAt(t, at).children|
    ensures Has(t, at + [i])
    ensures LoopAround(t, at + [i], loops, own)
            == if NodeAt(t, at).id in loops then A.Some(NodeAt(t, at).id) else LoopAround(t, at, loops, own)
    decreases |at|
  {
    Below(t, at, i);
    if at == [] {
      assert [] + [i] == [i] && [i][1..] == [];
    } else {
      LoopBelow(t.children[at[0]], at[1..], i, loops, if t.id in loops then A.Some(t.id) else own);
      assert (at + [i])[1..] == at[1..] + [i];
    }
  }

  // ----- a flattened statement is marked -----

  /** A statement with a flattened node is marked, and a post statement even before the last pass. */
  lemma {:induction false} FlatIsMarked(u: Unit, rounds: set<A.Node>, mb: set<A.Fn>, at: seq<nat>, s: Stmt, lab: Label,
                                        labels: map<Label, A.Node>)
    requires Finished(u, rounds, mb) && Has(u.root, at) && Shows(u, NodeAt(u.root, at), s, lab, labels) && HasFlat(s)
    ensures NodeAt(u.root, at).id in u.fi.blocking && (IsAtom(s) ==> NodeAt(u.root, at).id in rounds)
    decreases s, 1
  {
    var t := NodeAt(u.root, at);
    match s
    case Block(body) => FlatListIsMarked(u, rounds, mb, at, 0, body, labels);
    case If(cs, flat) => if !flat { FlatClausesAreMarked(u, rounds, mb, at, 0, cs, labels); }
    case TypeSwitch(cs, flat) => if !flat { FlatClausesAreMarked(u, rounds, mb, at, 0, cs, labels); }
    case Switch(body, flat) =>
      if !flat {
        Below(u.root, at, 0);
        FlatListIsMarked(u, rounds, mb, at + [0], 0, body, labels);
      }
    case For(_, post, body, flat) =>
      if !flat {
        var inner := labels[lab := t.id][None := t.id];
        forall i: nat | i < |t.children| ensures Has(u.root, at + [i]) && NodeAt(u.root, at + [i]) == t.children[i] {
          Below(u.root, at, i);
        }
        if HasFlatList(post) { FlatListIsMarked(u, rounds, mb, at + [0], 0, post, inner); }
        if HasFlatList(body) { FlatListIsMarked(u, rounds, mb, at + [|t.children| - 1], 0, body, inner); }
      }
    case Labeled(name, s') =>
      Below(u.root, at, 0);
      FlatIsMarked(u, rounds, mb, at + [0], s', Some(name), labels);
    case _ =>
  }

  lemma {:induction false} FlatListIsMarked(u: Unit, rounds: set<A.Node>, mb: set<A.Fn>, at: seq<nat>, k: nat,
                                            ss: Stmts, labels: map<Label, A.Node>)
    requires Finished(u, rounds, mb) && Has(u.root, at) && k <= |NodeAt(u.root, at).children|
    requires ShowsAll(u, NodeAt(u.root, at).children[k..], ss, labels) && HasFlatList(ss)
    ensures NodeAt(u.root, at).id in u.fi.blocking && (AtomsOnly(ss) ==> NodeAt(u.root, at).id in rounds)
    decreases ss, 1
  {
    var ts := NodeAt(u.root, at).children;
    Below(u.root, at, k);
    if HasFlat(ss.head) { FlatIsMarked(u, rounds, mb, at + [k], ss.head, None, labels); }
    if HasFlatList(ss.tail) {
      assert ts[k..][1..] == ts[k + 1..];
      FlatListIsMarked(u, rounds, mb, at, k + 1, ss.tail, labels);
    }
  }

  lemma {:induction false} FlatClausesAreMarked(u: Unit, rounds: set<A.Node>, mb: set<A.Fn>, at: seq<nat>, k: nat,
                                                cs: Clauses, labels: map<Label, A.Node>)
    requires Finished(u, rounds, mb) && Has(u.root, at) && k <= |NodeAt(u.root, at).children|
    requires ShowsClauses(u, NodeAt(u.root, at).children[k..], cs, labels) && HasFlatClauses(cs)
    ensures NodeAt(u.root, at).id in u.fi.blocking
    decreases cs, 1
  {
    var ts := NodeAt(u.root, at).children;
    Below(u.root, at, k);
    match cs
    case Default(body) => FlatListIsMarked(u, rounds, mb, at + [k], 0, body, labels);
    case Clause(_, body, rest) =>
      if HasFlatList(body) {
        FlatListIsMarked(u, rounds, mb, at + [k], 0, body, labels);
      } else {
        assert ts[k..][1..] == ts[k + 1..];
        if ShowsClauses(u, ts[k + 1..], rest, labels) {
          FlatClausesAreMarked(u, rounds, mb, at, k + 1, rest, labels);
        } else {
          assert ts[k..][1] == ts[k + 1];
          Below(u.root, at, k + 1);
          FlatClausesAreMarked(u, rounds, mb, at + [k + 1], 0, rest, labels);
        }
      }
  }

  // ----- the flags are what the translation relies on -----

  /** The enclosing loops are where the labels say, and one whose post statement is flattened has it marked. */
  ghost predicate ScopesShown(u: Unit, cx: Scopes, labels: map<Label, A.Node>, rounds: set<A.Node>,
                              around: A.Option<A.Node>) {
    && (forall l | l in cx && cx[l].isLoop :: l in labels && (cx[l].postFlat ==> PostIn(u.loops, labels[l], rounds)))
    && (None in cx && cx[None].isLoop ==> around == A.Some(labels[None]))
  }

  /** A function of the program with a flattened node may block. */
  predicate CalleesKnown(P: Prog, u: Unit, mb: set<A.Fn>) {
    P.Keys == u.names.Keys && forall f | f in P :: HasFlatList(P[f].body) ==> u.names[f] in mb
  }

  ghost predicate Analysed(P: Prog, u: Unit, rounds: set<A.Node>, mb: set<A.Fn>) {
    Finished(u, rounds, mb) && OwnLoops(u.root, u.loops) && CalleesKnown(P, u, mb)
  }

  ghost function Around(u: Unit, at: seq<nat>): A.Option<A.Node>
    requires Has(u.root, at)
  {
    LoopAround(u.root, at, u.loops, A.None)
  }

  lemma AtomIsOk(P: Prog, u: Unit, rounds: set<A.Node>, mb: set<A.Fn>, at: seq<nat>, s: Stmt, lab: Label,
                 labels: map<Label, A.Node>)
    requires Analysed(P, u, rounds, mb) && Has(u.root, at) && IsAtom(s)
    requires Shows(u, NodeAt(u.root, at), s, lab, labels)
    ensures AtomOk(P, s)
  { }

  lemma {:induction false} PostIsOk(P: Prog, u: Unit, rounds: set<A.Node>, mb: set<A.Fn>, at: seq<nat>, k: nat,
                                    ss: Stmts, labels: map<Label, A.Node>)
    requires Analysed(P, u, rounds, mb) && Has(u.root, at) && AtomsOnly(ss) && k <= |NodeAt(u.root, at).children|
    requires ShowsAll(u, NodeAt(u.root, at).children[k..], ss, labels)
    ensures PostOk(P, ss)
    decreases ss
  {
    if ss.Cons? {
      var ts := NodeAt(u.root, at).children;
      Below(u.root, at, k);
      AtomIsOk(P, u, rounds, mb, at + [k], ss.head, None, labels);
      assert ts[k..][1..] == ts[k + 1..];
      PostIsOk(P, u, rounds, mb, at, k + 1, ss.tail, labels);
    }
  }

  lemma Under(u: Unit, at: seq<nat>, i: nat)
    requires Has(u.root, at) && i < |NodeAt(u.root, at).children|
    ensures Has(u.root, at + [i]) && NodeAt(u.root, at + [i]) == NodeAt(u.root, at).children[i]
    ensures Around(u, at + [i])
            == if NodeAt(u.root, at).id in u.loops then A.Some(NodeAt(u.root, at).id) else Around(u, at)
  {
    Below(u.root, at, i);
    LoopBelow(u.root, at, i, u.loops, A.None);
  }

  lemma {:induction false} StmtIsOk(P: Prog, u: Unit, rounds: set<A.Node>, mb: set<A.Fn>, at: seq<nat>, s: Stmt,
                                    lab: Label, cx: Scopes, labels: map<Label, A.Node>)
    requires Analysed(P, u, rounds, mb) && Has(u.root, at) && Shows(u, NodeAt(u.root, at), s, lab, labels)
    requires Typed(s, lab, cx) && ScopesShown(u, cx, labels, rounds, Around(u, at))
    ensures Ok(P, s, lab, cx)
    decreases s, 1
  {
    hide Finished, OwnLoops, CalleesKnown, ScopesShown;
    var t := NodeAt(u.root, at);
    FlagsClosed(u, rounds, mb, at, s, lab, labels);
    match s
    case Block(body) => ListIsOk(P, u, rounds, mb, at, 0, body, cx, labels);
    case If(cs, flat) => ClausesAreOk(P, u, rounds, mb, at, 0, cs, cx, labels);
    case TypeSwitch(cs, flat) =>
      SwitchShown(u, rounds, at, lab, cx, labels);
      ClausesAreOk(P, u, rounds, mb, at, 0, cs, SwitchScope(cx, lab), labels);
    case Switch(body, flat) =>
      SwitchShown(u, rounds, at, lab, cx, labels);
      Under(u, at, 0);
      ListIsOk(P, u, rounds, mb, at + [0], 0, body, SwitchScope(cx, lab), labels);
    case For(_, post, body, flat) =>
      var inner := labels[lab := t.id][None := t.id];
      var last := |t.children| - 1;
      Under(u, at, 0);
      Under(u, at, last);
      if post.Cons? { PostIsOk(P, u, rounds, mb, at + [0], 0, post, inner); }
      LoopShown(u, rounds, mb, at, s, lab, cx, labels);
      ListIsOk(P, u, rounds, mb, at + [last], 0, body, LoopScope(cx, lab, post), inner);
    case Continue(l, flat) => ContinueIsOk(P, u, rounds, mb, at, s, lab, cx, labels);
    case Labeled(name, s') =>
      Under(u, at, 0);
      StmtIsOk(P, u, rounds, mb, at + [0], s', Some(name), cx, labels);
    case _ => if IsAtom(s) { AtomIsOk(P, u, rounds, mb, at, s, lab, labels); }
  }

  /** With a flattened node inside, a statement is flattened. */
  lemma FlagsClosed(u: Unit, rounds: set<A.Node>, mb: set<A.Fn>, at: seq<nat>, s: Stmt, lab: Label,
                    labels: map<Label, A.Node>)
    requires Finished(u, rounds, mb) && Has(u.root, at) && Shows(u, NodeAt(u.root, at), s, lab, labels)
    ensures HasFlat(s) ==> NodeAt(u.root, at).id in u.fi.flattened
    ensures s.If? || s.TypeSwitch? ==> (HasFlatClauses(s.clauses) ==> s.flat)
    ensures s.Switch? ==> (HasFlatList(s.body) ==> s.flat)
    ensures s.For? ==> (HasFlatList(s.post) || HasFlatList(s.body) ==> s.flat)
  {
    if HasFlat(s) { FlatIsMarked(u, rounds, mb, at, s, lab, labels); }
  }

  lemma ContinueIsOk(P: Prog, u: Unit, rounds: set<A.Node>, mb: set<A.Fn>, at: seq<nat>, s: Stmt, lab: Label,
                     cx: Scopes, labels: map<Label, A.Node>)
    requires Analysed(P, u, rounds, mb) && Has(u.root, at) && Shows(u, NodeAt(u.root, at), s, lab, labels)
    requires s.Continue? && Typed(s, lab, cx) && ScopesShown(u, cx, labels, rounds, Around(u, at))
    ensures Ok(P, s, lab, cx)
  {
    var t := NodeAt(u.root, at);
    assert LoopOf(t.kind.target, WayTo(u.root, at, []), u.loops) == A.Some(labels[s.l]);
    assert ContinueDue(u, at, rounds);
  }

  lemma SwitchShown(u: Unit, rounds: set<A.Node>, at: seq<nat>, lab: Label, cx: Scopes, labels: map<Label, A.Node>)
    requires Has(u.root, at) && ScopesShown(u, cx, labels, rounds, Around(u, at))
    ensures ScopesShown(u, SwitchScope(cx, lab), labels, rounds, Around(u, at))
  { }

  lemma LoopShown(u: Unit, rounds: set<A.Node>, mb: set<A.Fn>, at: seq<nat>, s: Stmt, lab: Label, cx: Scopes,
                  labels: map<Label, A.Node>)
    requires Finished(u, rounds, mb) && Has(u.root, at) && s.For? && AtomsOnly(s.post)
    requires Shows(u, NodeAt(u.root, at), s, lab, labels) && ScopesShown(u, cx, labels, rounds, Around(u, at))
    ensures var t := NodeAt(u.root, at);
            ScopesShown(u, LoopScope(cx, lab, s.post), labels[lab := t.id][None := t.id], rounds, A.Some(t.id))
  {
    var t := NodeAt(u.root, at);
    if HasFlatList(s.post) {
      Below(u.root, at, 0);
      FlatListIsMarked(u, rounds, mb, at + [0], 0, s.post, labels[lab := t.id][None := t.id]);
      assert PostIn(u.loops, t.id, rounds);
    }
  }

  lemma {:induction false} ListIsOk(P: Prog, u: Unit, rounds: set<A.Node>, mb: set<A.Fn>, at: seq<nat>, k: nat,
                                    ss: Stmts, cx: Scopes, labels: map<Label, A.Node>)
    requires Analysed(P, u, rounds, mb) && Has(u.root, at) && k <= |NodeAt(u.root, at).children|
    requires NodeAt(u.root, at).id !in u.loops && ShowsAll(u, NodeAt(u.root, at).children[k..], ss, labels)
    requires TypedAll(ss, cx) && ScopesShown(u, cx, labels, rounds, Around(u, at))
    ensures OkList(P, ss, cx)
    decreases ss, 1
  {
    hide Analysed, ScopesShown;
    if ss.Cons? {
      var ts := NodeAt(u.root, at).children;
      Under(u, at, k);
      StmtIsOk(P, u, rounds, mb, at + [k], ss.head, None, cx, labels);
      assert ts[k..][1..] == ts[k + 1..];
      ListIsOk(P, u, rounds, mb, at, k + 1, ss.tail, cx, labels);
    }
  }

  lemma {:induction false} ClausesAreOk(P: Prog, u: Unit, rounds: set<A.Node>, mb: set<A.Fn>, at: seq<nat>, k: nat,
                                        cs: Clauses, cx: Scopes, labels: map<Label, A.Node>)
    requires Analysed(P, u, rounds, mb) && Has(u.root, at) && k <= |NodeAt(u.root, at).children|
    requires NodeAt(u.root, at).id !in u.loops && ShowsClauses(u, NodeAt(u.root, at).children[k..], cs, labels)
    requires TypedClauses(cs, cx) && ScopesShown(u, cx, labels, rounds, Around(u, at))
    ensures OkClauses(P, cs, cx)
    decreases cs, 1
  {
    hide Analysed, ScopesShown;
    if !cs.End? {
      var ts := NodeAt(u.root, at).children;
      Under(u, at, k);
      ListIsOk(P, u, rounds, mb, at + [k], 0, cs.body, cx, labels);
      if cs.Clause? {
        assert ts[k..][1..] == ts[k + 1..];
        if ShowsClauses(u, ts[k + 1..], cs.rest, labels) {
          ClausesAreOk(P, u, rounds, mb, at, k + 1, cs.rest, cx, labels);
        } else {
          assert ts[k..][1] == ts[k + 1];
          Under(u, at, k + 1);
          ClausesAreOk(P, u, rounds, mb, at + [k + 1], 0, cs.rest, cx, labels);
        }
      }
    }
  }
}
