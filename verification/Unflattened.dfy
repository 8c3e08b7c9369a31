/** Code that is not flattened runs in step with its source: same gas, same world, and a jump out
    of it to a flattened statement leaves through $s after the post statement of a `continue`. */
module Unflattened {
  import opened GoSource
  import opened JsMachine
  import opened Emitter

  // ----- what the source can do -----

  /** A post statement ends normally or runs out of gas. */
  lemma {:induction false} PostNormal(P: Prog, O: Oracle, post: Stmts, st: State, g: nat)
    requires PostOk(P, post)
    ensures ExecList(P, O, post, st, g).Normal? || ExecList(P, O, post, st, g).Timeout?
  {
    if post.Cons? {
      var o := ExecStmt(P, O, post.head, None, st, g);
      if o.Normal? { PostNormal(P, O, post.tail, o.st, o.gas); }
    }
  }

  /** A jump out of a statement names an enclosing statement; an unlabelled break shows in HasBreak. */
  ghost predicate Leaves(o: Outcome, cx: Scopes, breaks: bool) {
    && (o.Brk? ==> o.l in cx && cx[o.l].canBreak && (o.l == None ==> breaks))
    && (o.Cont? ==> o.l in cx && cx[o.l].isLoop)
  }

  lemma {:induction false} StmtLeaves(P: Prog, O: Oracle, s: Stmt, lab: Label, cx: Scopes, st: State, g: nat)
    requires Ok(P, s, lab, cx)
    ensures Leaves(ExecStmt(P, O, s, lab, st, g), cx, HasBreak(s))
    decreases g, s, 1
  {
    match s
    case Block(body) => ListLeaves(P, O, body, cx, st, g);
    case If(cs, _) => ClausesLeave(P, O, cs, cx, st, g);
    case TypeSwitch(cs, _) => ClausesLeave(P, O, cs, SwitchScope(cx, lab), st, g);
    case Switch(body, _) => ListLeaves(P, O, body, SwitchScope(cx, lab), st, g);
    case For(_, _, _, _) => LoopLeaves(P, O, s, lab, cx, st, g);
    case Labeled(name, s') => StmtLeaves(P, O, s', Some(name), cx, st, g);
    case _ =>
  }

  lemma {:induction false} ListLeaves(P: Prog, O: Oracle, ss: Stmts, cx: Scopes, st: State, g: nat)
    requires OkList(P, ss, cx)
    ensures Leaves(ExecList(P, O, ss, st, g), cx, HasBreakList(ss))
    decreases g, ss, 1
  {
    if ss.Cons? {
      StmtLeaves(P, O, ss.head, None, cx, st, g);
      var o := ExecStmt(P, O, ss.head, None, st, g);
      if o.Normal? { ListLeaves(P, O, ss.tail, cx, o.st, o.gas); }
    }
  }

  lemma {:induction false} ClausesLeave(P: Prog, O: Oracle, cs: Clauses, cx: Scopes, st: State, g: nat)
    requires OkClauses(P, cs, cx)
    ensures Leaves(ExecClauses(P, O, cs, st, g), cx, HasBreakClauses(cs))
    decreases g, cs, 1
  {
    match cs
    case End =>
    case Default(body) => ListLeaves(P, O, body, cx, st, g);
    case Clause(c, body, rest) =>
      ListLeaves(P, O, body, cx, st, g);
      ClausesLeave(P, O, rest, cx, st, g);
  }

  lemma {:induction false} LoopLeaves(P: Prog, O: Oracle, s: Stmt, lab: Label, cx: Scopes, st: State, g: nat)
    requires s.For? && Ok(P, s, lab, cx)
    ensures Leaves(ExecLoop(P, O, s, lab, st, g), cx, false)
    decreases g, s, 0
  {
    ListLeaves(P, O, s.body, LoopScope(cx, lab, s.post), st, g);
    var o := ExecList(P, O, s.body, st, g);
    if o.Normal? || (o.Cont? && (o.l == None || o.l == lab)) {
      PostNormal(P, O, s.post, o.st, o.gas);
      var p := ExecList(P, O, s.post, o.st, o.gas);
      if p.Normal? && p.gas > 0 { LoopLeaves(P, O, s, lab, cx, p.st, p.gas - 1); }
    }
  }

  lemma {:induction false} TerminatedNotNormal(P: Prog, O: Oracle, ss: Stmts, st: State, g: nat)
    requires IsTerminated(ss)
    ensures !ExecList(P, O, ss, st, g).Normal?
  {
    if ss.tail.Cons? {
      var o := ExecStmt(P, O, ss.head, None, st, g);
      if o.Normal? { TerminatedNotNormal(P, O, ss.tail, o.st, o.gas); }
    }
  }

  // ----- corresponding outcomes -----

  function With(js: JState, st: State): JState {
    js.(locals := st.locals, w := st.w)
  }

  predicate Same(js: JState, st: State) {
    js.locals == st.locals && js.w == st.w
  }

  /** What known scopes say about the flow data in force. */
  ghost predicate Agrees(P: Prog, cx: Scopes, env: Flows) {
    && None in cx
    && forall l | l in cx ::
         && l in env
         && (cx[l].isLoop ==> PostOk(P, env[l].post) && (cx[l].postFlat == HasFlatList(env[l].post)))
  }

  /** The outcome of the emitted code: a `continue` has already run the post statement, a jump to a
      flattened statement is a `continue` of the machine with $s set. */
  ghost function Img(P: Prog, O: Oracle, env: Flows, o: Outcome, js: JState): JOut {
    match o
    case Normal(st, g) => JNormal(With(js, st), g)
    case Brk(l, st, g) =>
      if Data(env, l).end == 0 then JBrk(NamedOrInner(l), With(js, st), g)
      else JCont(if l.Some? then Machine else Inner, With(js, st).(s := Data(env, l).end), g)
    case Cont(l, st, g) =>
      (match ExecList(P, O, Data(env, l).post, st, g)
       case Normal(st2, g2) =>
         if Data(env, l).begin == 0 then JCont(NamedOrInner(l), With(js, st2), g2)
         else JCont(if l.Some? then Machine else Inner, With(js, st2).(s := Data(env, l).begin), g2)
       case Timeout(w) => JTimeout(w)
       case _ => JStuck)
    case Ret(v, w, g) => JRet(v, w, g)
    case Timeout(w) => JTimeout(w)
  }

  lemma {:induction false} RunConcat(Q: JProg, a: seq<Js>, b: seq<Js>, js: JState, g: nat)
    ensures JRun(Q, a + b, js, g) ==
            (var o := JRun(Q, a, js, g); if o.JNormal? then JRun(Q, b, o.js, o.gas) else o)
    decreases |a|
  {
    if a == [] {
      assert a + b == b;
    } else {
      assert (a + b)[1..] == a[1..] + b;
      var o := JStep(Q, a[0], js, g);
      if o.JNormal? { RunConcat(Q, a[1..], b, o.js, o.gas); }
    }
  }

  lemma RunOne(Q: JProg, i: Js, js: JState, g: nat)
    ensures JRun(Q, [i], js, g) == JStep(Q, i, js, g)
  {
    var o := JStep(Q, i, js, g);
    assert [i][1..] == [];
    if o.JNormal? { assert JRun(Q, [], o.js, o.gas) == o; }
  }

  lemma RunTwo(Q: JProg, i: Js, k: Js, js: JState, g: nat)
    ensures JRun(Q, [i, k], js, g) ==
            (var o := JStep(Q, i, js, g); if o.JNormal? then JStep(Q, k, o.js, o.gas) else o)
  {
    assert [i, k] == [i] + [k];
    RunConcat(Q, [i], [k], js, g);
    RunOne(Q, i, js, g);
    var o := JStep(Q, i, js, g);
    if o.JNormal? { RunOne(Q, k, o.js, o.gas); }
  }

  // ----- the lock-step lemmas -----

  ghost function FnImg(o: FnOutcome): JOut {
    match o
    case Done(v, w, g) => JRet(v, w, g)
    case OutOfGas(w) => JTimeout(w)
  }

  lemma {:induction false} NestedFn(P: Prog, O: Oracle, f: Name, args: seq<int>, w: World, g: nat)
    requires OkProg(P) && f in P && !HasFlatList(P[f].body)
    ensures JPlain(CompileProg(P), f, args, w, g) ==
            FnImg(FnResult(ExecList(P, O, P[f].body, State(Bind(P[f].params, args), w), g)))
    decreases g, 4
  {
    var st := State(Bind(P[f].params, args), w);
    var js := JState(st.locals, 0, false, JInt(0), w);
    assert Agrees(P, TOP_SCOPE, TOP);
    NestedList(P, O, P[f].body, TOP_SCOPE, TOP, 1, false, st, js, g);
    ListLeaves(P, O, P[f].body, TOP_SCOPE, st, g);
  }

  lemma {:induction false} NestedAtom(P: Prog, O: Oracle, s: Stmt, lab: Label, n: nat, st: State, js: JState, g: nat)
    requires OkProg(P) && AtomOk(P, s) && !HasFlat(s) && Same(js, st)
    ensures ExecStmt(P, O, s, lab, st, g).Normal? || ExecStmt(P, O, s, lab, st, g).Timeout?
    ensures JRun(CompileProg(P), EmitAtom(s, n).js, js, g) == Img(P, O, TOP, ExecStmt(P, O, s, lab, st, g), js)
    decreases g, 1, s, 1
  {
    var Q := CompileProg(P);
    RunOne(Q, EmitAtom(s, n).js[0], js, g);
    assert EmitAtom(s, n).js == [EmitAtom(s, n).js[0]];
    match s
    case Simple(b) =>
    case Call(x, f, args, _) => NestedCall(P, O, x, f, args, st, js, g);
    case ShortCircuit(x, isAnd, e, f, args, _) =>
      NestedCall(P, O, x, f, args, st, js, g);
      RunOne(Q, PlainCall(x, f, args), js, g);
      RunOne(Q, Do(Assign(x, Num(if isAnd then 0 else 1))), js, g);
  }

  lemma {:induction false} NestedCall(P: Prog, O: Oracle, x: Name, f: Name, args: seq<Expr>, st: State, js: JState,
                                      g: nat)
    requires OkProg(P) && f in P && !HasFlatList(P[f].body) && Same(js, st)
    ensures JStep(CompileProg(P), PlainCall(x, f, args), js, g) ==
            Img(P, O, TOP, AssignResult(st, x, CallFn(P, O, f, EvalAll(args, st.locals, st.w.globals), st.w, g)), js)
    decreases g, 0
  {
    if g > 0 { NestedFn(P, O, f, EvalAll(args, st.locals, st.w.globals), st.w, g - 1); }
  }

  lemma {:induction false} NestedPost(P: Prog, O: Oracle, post: Stmts, n: nat, st: State, js: JState, g: nat)
    requires OkProg(P) && PostOk(P, post) && !HasFlatList(post) && Same(js, st)
    ensures ExecList(P, O, post, st, g).Normal? || ExecList(P, O, post, st, g).Timeout?
    ensures JRun(CompileProg(P), EmitPost(post, n).js, js, g) == Img(P, O, TOP, ExecList(P, O, post, st, g), js)
    decreases g, 1, post, 1
  {
    if post.Cons? {
      var c := EmitAtom(post.head, n);
      NestedAtom(P, O, post.head, None, n, st, js, g);
      RunConcat(CompileProg(P), c.js, EmitPost(post.tail, c.next).js, js, g);
      var o := ExecStmt(P, O, post.head, None, st, g);
      if o.Normal? { NestedPost(P, O, post.tail, c.next, o.st, With(js, o.st), o.gas); }
    }
  }

  lemma {:induction false} NestedStmt(P: Prog, O: Oracle, s: Stmt, lab: Label, cx: Scopes, env: Flows, n: nat,
                                      inFlat: bool, st: State, js: JState, g: nat)
    requires OkProg(P) && Ok(P, s, lab, cx) && !HasFlat(s) && Agrees(P, cx, env) && Same(js, st)
    ensures (var out := JRun(CompileProg(P), EmitStmt(s, lab, env, n, inFlat).js, js, g);
             var img := Img(P, O, env, ExecStmt(P, O, s, lab, st, g), js);
             out == img)
    decreases g, 3, s, 1
  {
    match s
    case Block(body) => NestedList(P, O, body, cx, env, n, inFlat, st, js, g);
    case If(cs, _) => NestedClauses(P, O, cs, cx, env, n, inFlat, st, js, g);
    case TypeSwitch(_, _) => NestedEither(P, O, s, lab, cx, env, n, inFlat, st, js, g);
    case Switch(_, _) => NestedEither(P, O, s, lab, cx, env, n, inFlat, st, js, g);
    case For(_, _, _, _) =>
      NestedLoop(P, O, s, lab, cx, env, n, inFlat, st, js, g);
      RunOne(CompileProg(P), EmitWhile(s, lab, env, n, inFlat).js[0], js, g);
    case Labeled(name, s') => NestedStmt(P, O, s', Some(name), cx, env, n, inFlat, st, js, g);
    case _ => NestedSimple(P, O, s, lab, cx, env, n, inFlat, st, js, g);
  }

  lemma {:induction false} NestedSimple(P: Prog, O: Oracle, s: Stmt, lab: Label, cx: Scopes, env: Flows, n: nat,
                                        inFlat: bool, st: State, js: JState, g: nat)
    requires OkProg(P) && Ok(P, s, lab, cx) && !HasFlat(s) && Agrees(P, cx, env) && Same(js, st)
    requires !s.Block? && !s.If? && !s.TypeSwitch? && !s.Switch? && !s.For? && !s.Labeled?
    ensures JRun(CompileProg(P), EmitStmt(s, lab, env, n, inFlat).js, js, g)
            == Img(P, O, env, ExecStmt(P, O, s, lab, st, g), js)
    decreases g, 3, s, 0
  {
    if s.Break? {
      NestedBreak(P, O, s.l, env, st, js, g);
    } else if s.Continue? {
      NestedContinue(P, O, s.l, cx, env, n, st, js, g);
    } else if s.Return? {
      RunOne(CompileProg(P), JReturn(s.e), js, g);
      RunTwo(CompileProg(P), SetS(-1), JReturn(s.e), js, g);
    } else {
      NestedAtom(P, O, s, lab, n, st, js, g);
    }
  }

  lemma {:induction false} NestedEither(P: Prog, O: Oracle, s: Stmt, lab: Label, cx: Scopes, env: Flows, n: nat,
                                        inFlat: bool, st: State, js: JState, g: nat)
    requires OkProg(P) && Ok(P, s, lab, cx) && !HasFlat(s) && Agrees(P, cx, env) && Same(js, st)
    requires s.TypeSwitch? || s.Switch?
    ensures JRun(CompileProg(P), EmitStmt(s, lab, env, n, inFlat).js, js, g)
            == Img(P, O, env, ExecStmt(P, O, s, lab, st, g), js)
    decreases g, 3, s, 0
  {
    var env' := Push(env, lab, SwitchFlow(env, 0));
    match s
    case TypeSwitch(cs, _) =>
      NestedClauses(P, O, cs, SwitchScope(cx, lab), env', n, inFlat, st, js, g);
      ClausesLeave(P, O, cs, SwitchScope(cx, lab), st, g);
      NestedSwitch(P, O, EmitNested(cs, env', n, inFlat).js, ExecClauses(P, O, cs, st, g), HasBreakClauses(cs), lab,
                   cx, env, js, g);
    case Switch(body, _) =>
      NestedList(P, O, body, SwitchScope(cx, lab), env', n, inFlat, st, js, g);
      ListLeaves(P, O, body, SwitchScope(cx, lab), st, g);
      NestedSwitch(P, O, EmitList(body, env', n, inFlat).js, ExecList(P, O, body, st, g), HasBreakList(body), lab, cx,
                   env, js, g);
  }

  // `switch (0) { default: ... }` is printed when the statement is labelled or left by a break.
  lemma NestedSwitch(P: Prog, O: Oracle, inner: seq<Js>, o: Outcome, breaks: bool, lab: Label, cx: Scopes, env: Flows,
                     js: JState, g: nat)
    requires Agrees(P, cx, env) && Leaves(o, SwitchScope(cx, lab), breaks)
    requires JRun(CompileProg(P), inner, js, g) == Img(P, O, Push(env, lab, SwitchFlow(env, 0)), o, js)
    ensures JRun(CompileProg(P), if lab.Some? || breaks then [JSwitch0(lab, inner)] else inner, js, g)
            == Img(P, O, env, CatchBreak(lab, o), js)
  {
    var out := JRun(CompileProg(P), inner, js, g);
    RunOne(CompileProg(P), JSwitch0(lab, inner), js, g);
    assert JStep(CompileProg(P), JSwitch0(lab, inner), js, g) ==
           if out.JBrk? && Hits(out.t, lab) then JNormal(out.js, out.gas) else out;
    CatchImg(P, O, env, lab, cx, o, js);
  }

  lemma CatchImg(P: Prog, O: Oracle, env: Flows, lab: Label, cx: Scopes, o: Outcome, js: JState)
    requires Agrees(P, cx, env) && (o.Cont? ==> o.l in SwitchScope(cx, lab) && SwitchScope(cx, lab)[o.l].isLoop)
    ensures var out := Img(P, O, Push(env, lab, SwitchFlow(env, 0)), o, js);
            && (if out.JBrk? && Hits(out.t, lab) then JNormal(out.js, out.gas) else out)
               == Img(P, O, env, CatchBreak(lab, o), js)
            && (lab == None && !(o.Brk? && o.l == None) ==> out == Img(P, O, env, o, js))
  {
  }

  lemma {:induction false} NestedBreak(P: Prog, O: Oracle, l: Label, env: Flows, st: State, js: JState, g: nat)
    requires Same(js, st)
    ensures JRun(CompileProg(P), EmitStmt(Break(l), None, env, 0, false).js, js, g) == Img(P, O, env, Brk(l, st, g), js)
  {
    var d := Data(env, l);
    RunOne(CompileProg(P), BreakTo(NamedOrInner(l)), js, g);
    RunTwo(CompileProg(P), SetS(d.end), ContinueTo(if l.Some? then Machine else Inner), js, g);
  }

  lemma {:induction false} NestedContinue(P: Prog, O: Oracle, l: Label, cx: Scopes, env: Flows, n: nat, st: State,
                                          js: JState, g: nat)
    requires OkProg(P) && Agrees(P, cx, env) && Ok(P, Continue(l, false), None, cx) && Same(js, st)
    ensures JRun(CompileProg(P), EmitStmt(Continue(l, false), None, env, n, false).js, js, g)
            == Img(P, O, env, Cont(l, st, g), js)
    decreases g, 2
  {
    var Q := CompileProg(P);
    var d := Data(env, l);
    var c := EmitPost(d.post, n);
    NestedPost(P, O, d.post, n, st, js, g);
    var tail := if d.begin == 0 then [ContinueTo(NamedOrInner(l))] else JumpTo(l, d.begin);
    RunConcat(Q, c.js, tail, js, g);
    var o := ExecList(P, O, d.post, st, g);
    if o.Normal? {
      RunOne(Q, ContinueTo(NamedOrInner(l)), With(js, o.st), o.gas);
      RunTwo(Q, SetS(d.begin), ContinueTo(if l.Some? then Machine else Inner), With(js, o.st), o.gas);
    }
  }

  lemma {:induction false} NestedList(P: Prog, O: Oracle, ss: Stmts, cx: Scopes, env: Flows, n: nat, inFlat: bool,
                                      st: State, js: JState, g: nat)
    requires OkProg(P) && OkList(P, ss, cx) && !HasFlatList(ss) && Agrees(P, cx, env) && Same(js, st)
    ensures JRun(CompileProg(P), EmitList(ss, env, n, inFlat).js, js, g)
            == Img(P, O, env, ExecList(P, O, ss, st, g), js)
    decreases g, 3, ss, 1
  {
    if ss.Cons? {
      var c := EmitStmt(ss.head, None, env, n, inFlat);
      NestedStmt(P, O, ss.head, None, cx, env, n, inFlat, st, js, g);
      var o := ExecStmt(P, O, ss.head, None, st, g);
      if o.Normal? {
        NestedList(P, O, ss.tail, cx, env, c.next, inFlat, o.st, With(js, o.st), o.gas);
      }
      ConsImg(P, O, ss, env, n, inFlat, st, js, g);
    }
  }

  lemma ConsImg(P: Prog, O: Oracle, ss: Stmts, env: Flows, n: nat, inFlat: bool, st: State, js: JState, g: nat)
    requires ss.Cons?
    requires var o := ExecStmt(P, O, ss.head, None, st, g);
             var c := EmitStmt(ss.head, None, env, n, inFlat);
             && JRun(CompileProg(P), c.js, js, g) == Img(P, O, env, o, js)
             && (o.Normal? ==> JRun(CompileProg(P), EmitList(ss.tail, env, c.next, inFlat).js, With(js, o.st), o.gas)
                               == Img(P, O, env, ExecList(P, O, ss.tail, o.st, o.gas), With(js, o.st)))
    ensures JRun(CompileProg(P), EmitList(ss, env, n, inFlat).js, js, g)
            == Img(P, O, env, ExecList(P, O, ss, st, g), js)
  {
    var o := ExecStmt(P, O, ss.head, None, st, g);
    var c := EmitStmt(ss.head, None, env, n, inFlat);
    RunConcat(CompileProg(P), c.js, EmitList(ss.tail, env, c.next, inFlat).js, js, g);
    if o.Normal? { ImgFrame(P, O, env, ExecList(P, O, ss.tail, o.st, o.gas), js, With(js, o.st)); }
    else { ImgNotNormal(P, O, env, o, js); }
  }

  lemma ImgFrame(P: Prog, O: Oracle, env: Flows, o: Outcome, js: JState, js': JState)
    requires js' == js.(locals := js'.locals, w := js'.w)
    ensures Img(P, O, env, o, js) == Img(P, O, env, o, js')
  {
  }

  lemma ImgNotNormal(P: Prog, O: Oracle, env: Flows, o: Outcome, js: JState)
    requires !o.Normal?
    ensures !Img(P, O, env, o, js).JNormal?
  {
  }

  lemma {:induction false} NestedClauses(P: Prog, O: Oracle, cs: Clauses, cx: Scopes, env: Flows, n: nat, inFlat: bool,
                                         st: State, js: JState, g: nat)
    requires OkProg(P) && OkClauses(P, cs, cx) && !HasFlatClauses(cs) && Agrees(P, cx, env) && Same(js, st)
    ensures JRun(CompileProg(P), EmitNested(cs, env, n, inFlat).js, js, g)
            == Img(P, O, env, ExecClauses(P, O, cs, st, g), js)
    decreases g, 3, cs, 1
  {
    match cs
    case End =>
    case Default(body) => NestedList(P, O, body, cx, env, n, inFlat, st, js, g);
    case Clause(c, body, rest) =>
      var b := EmitList(body, env, n, inFlat);
      RunOne(CompileProg(P), EmitNested(cs, env, n, inFlat).js[0], js, g);
      if Holds(c, st.locals, st.w) {
        NestedList(P, O, body, cx, env, n, inFlat, st, js, g);
      } else {
        NestedClauses(P, O, rest, cx, env, b.next, inFlat, st, js, g);
      }
  }

  lemma {:induction false} NestedLoop(P: Prog, O: Oracle, s: Stmt, lab: Label, cx: Scopes, env: Flows, n: nat,
                                      inFlat: bool, st: State, js: JState, g: nat)
    requires s.For? && OkProg(P) && Ok(P, s, lab, cx) && !HasFlat(s) && Agrees(P, cx, env) && Same(js, st)
    ensures JLoop(CompileProg(P), EmitWhile(s, lab, env, n, inFlat).js[0], js, g)
            == Img(P, O, env, ExecLoop(P, O, s, lab, st, g), js)
    decreases g, 3, s, 0, 1
  {
    hide JRun, JStep, ExecStmt, ExecList, EmitList, EmitPost, Agrees, OkProg;
    var i := EmitWhile(s, lab, env, n, inFlat).js[0];
    NestedBody(P, O, s, lab, cx, env, n, inFlat, st, js, g);
    if Exits(s, st) {
      assert JLoop(CompileProg(P), i, js, g) == JNormal(js, g);
    } else {
      var t := TurnEnd(P, O, s, lab, ExecList(P, O, s.body, st, g));
      if GoesOn(lab, ExecList(P, O, s.body, st, g)) && t.Normal? && t.gas > 0 {
        NestedLoop(P, O, s, lab, cx, env, n, inFlat, t.st, With(js, t.st), t.gas - 1);
        ImgFrame(P, O, env, ExecLoop(P, O, s, lab, t.st, t.gas - 1), js, With(js, t.st));
      }
      LoopStep(P, O, s, lab, env, i, st, js, g);
    }
  }

  predicate Exits(s: Stmt, st: State)
    requires s.For?
  {
    s.cond.Some? && !Holds(s.cond.value, st.locals, st.w)
  }

  /** The body of the emitted `while`: its test, or the image of one turn. */
  lemma {:induction false} NestedBody(P: Prog, O: Oracle, s: Stmt, lab: Label, cx: Scopes, env: Flows, n: nat,
                                      inFlat: bool, st: State, js: JState, g: nat)
    requires s.For? && OkProg(P) && Ok(P, s, lab, cx) && !HasFlat(s) && Agrees(P, cx, env) && Same(js, st)
    ensures JRun(CompileProg(P), EmitWhile(s, lab, env, n, inFlat).js[0].body, js, g) ==
            if Exits(s, st) then JBrk(Inner, js, g) else TurnImg(P, O, s, lab, env, ExecList(P, O, s.body, st, g), js)
    decreases g, 3, s, 0, 0
  {
    TestThenBody(P, s, lab, env, n, inFlat, st, js, g);
    if !Exits(s, st) {
      var env' := Push(env, lab, Flow(s.post, 0, 0));
      NestedList(P, O, s.body, LoopScope(cx, lab, s.post), env', n, inFlat, st, js, g);
      NestedTurn(P, O, s, lab, env, EmitList(s.body, env', n, inFlat), st, js, g);
    }
  }

  ghost function TurnImg(P: Prog, O: Oracle, s: Stmt, lab: Label, env: Flows, o: Outcome, js: JState): JOut
    requires s.For?
  {
    if o.Normal? then Img(P, O, TOP, TurnEnd(P, O, s, lab, o), js)
        else Img(P, O, Push(env, lab, Flow(s.post, 0, 0)), o, js)
  }

  predicate GoesOn(lab: Label, o: Outcome) {
    o.Normal? || (o.Cont? && (o.l == None || o.l == lab))
  }

  // One iteration of both loops, given that the bodies and the remaining iterations correspond.
  lemma LoopStep(P: Prog, O: Oracle, s: Stmt, lab: Label, env: Flows, i: Js, st: State, js: JState, g: nat)
    requires s.For? && i.JWhile? && i.lab == lab && PostOk(P, s.post)
    requires !Exits(s, st)
    requires var o := ExecList(P, O, s.body, st, g);
             var t := TurnEnd(P, O, s, lab, o);
             && JRun(CompileProg(P), i.body, js, g) == TurnImg(P, O, s, lab, env, o, js)
             && (GoesOn(lab, o) && t.Normal? && t.gas > 0 ==>
                   JLoop(CompileProg(P), i, With(js, t.st), t.gas - 1)
                       == Img(P, O, env, ExecLoop(P, O, s, lab, t.st, t.gas - 1), js))
    ensures JLoop(CompileProg(P), i, js, g) == Img(P, O, env, ExecLoop(P, O, s, lab, st, g), js)
  {
    var o := ExecList(P, O, s.body, st, g);
    var t := TurnEnd(P, O, s, lab, o);
    if o.Normal? { PostNormal(P, O, s.post, o.st, o.gas); } else { LoopImg(P, O, s, lab, env, o, js); }
    if !GoesOn(lab, o) {
      assert ExecLoop(P, O, s, lab, st, g) == CatchBreak(lab, o);
    }
  }

  /** The body's outcome with the post statement run when the loop goes on. */
  ghost function TurnEnd(P: Prog, O: Oracle, s: Stmt, lab: Label, o: Outcome): Outcome
    requires s.For?
  {
    if GoesOn(lab, o) then ExecList(P, O, s.post, o.st, o.gas) else o
  }

  // The emitted body with its post statement.
  lemma NestedTurn(P: Prog, O: Oracle, s: Stmt, lab: Label, env: Flows, b: Code, st: State, js: JState, g: nat)
    requires s.For? && OkProg(P) && PostOk(P, s.post) && !HasFlatList(s.post)
    requires var o := ExecList(P, O, s.body, st, g);
             JRun(CompileProg(P), b.js, js, g) == Img(P, O, Push(env, lab, Flow(s.post, 0, 0)), o, js)
    ensures var o := ExecList(P, O, s.body, st, g);
            var p := if IsTerminated(s.body) then Code([], b.next) else EmitPost(s.post, b.next);
            JRun(CompileProg(P), b.js + p.js, js, g) == TurnImg(P, O, s, lab, env, o, js)
    decreases g, 2
  {
    var o := ExecList(P, O, s.body, st, g);
    var p := if IsTerminated(s.body) then Code([], b.next) else EmitPost(s.post, b.next);
    RunConcat(CompileProg(P), b.js, p.js, js, g);
    if o.Normal? {
      if IsTerminated(s.body) { TerminatedNotNormal(P, O, s.body, st, g); }
      NestedPost(P, O, s.post, b.next, o.st, With(js, o.st), o.gas);
      ImgFrame(P, O, TOP, ExecList(P, O, s.post, o.st, o.gas), js, With(js, o.st));
    } else {
      ImgNotNormal(P, O, Push(env, lab, Flow(s.post, 0, 0)), o, js);
    }
  }

  // How the JavaScript loop takes the outcome of its body.
  lemma LoopImg(P: Prog, O: Oracle, s: Stmt, lab: Label, env: Flows, o: Outcome, js: JState)
    requires s.For? && PostOk(P, s.post) && !o.Normal?
    ensures var out := Img(P, O, Push(env, lab, Flow(s.post, 0, 0)), o, js);
            var t := TurnEnd(P, O, s, lab, o);
            if o.Cont? && (o.l == None || o.l == lab) then
              && (t.Normal? ==> out.JCont? && Hits(out.t, lab) && out.js == With(js, t.st) && out.gas == t.gas)
              && (!t.Normal? ==> t.Timeout? && out == JTimeout(t.w))
            else if o.Brk? && (o.l == None || o.l == lab) then
              out == JBrk(NamedOrInner(o.l), With(js, o.st), o.gas) && Hits(out.t, lab)
            else
              && out == Img(P, O, env, o, js)
              && !out.JNormal? && !(out.JBrk? && Hits(out.t, lab)) && !(out.JCont? && Hits(out.t, lab))
  {
    if o.Cont? { PostNormal(P, O, s.post, o.st, o.gas); }
  }

  // A loop whose test fails leaves through its `break`; otherwise the body and the post statement run.
  lemma TestThenBody(P: Prog, s: Stmt, lab: Label, env: Flows, n: nat, inFlat: bool, st: State, js: JState, g: nat)
    requires s.For? && Same(js, st)
    ensures var b := EmitList(s.body, Push(env, lab, Flow(s.post, 0, 0)), n, inFlat);
            var p := if IsTerminated(s.body) then Code([], b.next) else EmitPost(s.post, b.next);
            JRun(CompileProg(P), EmitWhile(s, lab, env, n, inFlat).js[0].body, js, g) ==
            if Exits(s, st) then JBrk(Inner, js, g)
            else JRun(CompileProg(P), b.js + p.js, js, g)
  {
    var Q := CompileProg(P);
    var b := EmitList(s.body, Push(env, lab, Flow(s.post, 0, 0)), n, inFlat);
    var p := if IsTerminated(s.body) then Code([], b.next) else EmitPost(s.post, b.next);
    var test := if s.cond.Some? then [JIf(Not(s.cond.value), [BreakTo(Inner)], [])] else [];
    RunConcat(Q, test, b.js + p.js, js, g);
    if s.cond.Some? {
      RunOne(Q, JIf(Not(s.cond.value), [BreakTo(Inner)], []), js, g);
      RunOne(Q, BreakTo(Inner), js, g);
    }
  }
}
