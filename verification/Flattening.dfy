/** The machine of a flattened function simulates its source: with k more units of gas for the
    additional jumps it ends in the same way, and it runs out of gas where the source does. */
module Flattening {
  import opened GoSource
  import opened JsMachine
  import opened Emitter
  import opened Unflattened
  import opened MoreGas
  import opened SuspendResume
  import opened CaseNumbers
  import opened CaseTargets

  /** A flattened function of a program. */
  datatype Ctx = Ctx(P: Prog, O: Oracle, f: Name) {
    ghost predicate Good() {
      OkProg(P) && f in P && HasFlatList(P[f].body)
    }

    ghost function Code(): seq<Js>
      requires Good()
    {
      Compile(P[f]).code
    }

    ghost function R(pc: nat, js: JState, g: nat): TOut
      requires Good() && pc <= |Code()|
    {
      Run(CompileProg(P), O, InPlace, f, Code(), pc, js, g)
    }

    /** `$s` is set; `continue` the machine. */
    ghost function Jump(js: JState, g: nat): TOut
      requires Good()
    {
      if g == 0 then TTimeout(js.w) else R(FindCase(Code(), js.s), js, g - 1)
    }
  }

  /** Where a statement leaves the machine. */
  datatype Landing =
    | At(pc: nat, st: State, gas: nat)
    | Jumping(n: nat, st: State, gas: nat)
    | Returned(v: int, w: World, gas: nat)
    | OutOf(w: World)

  ghost function Land(P: Prog, O: Oracle, env: Flows, exit: nat, o: Outcome): Landing {
    match o
    case Normal(st, g) => At(exit, st, g)
    case Brk(l, st, g) => Jumping(Data(env, l).end, st, g)
    case Cont(l, st, g) =>
      (match ExecList(P, O, Data(env, l).post, st, g)
       case Normal(st2, g2) => Jumping(Data(env, l).begin, st2, g2)
       case Timeout(w) => OutOf(w)
       case _ => OutOf(st.w))
    case Ret(v, w, g) => Returned(v, w, g)
    case Timeout(w) => OutOf(w)
  }

  ghost predicate ReachesAt(X: Ctx, pc: nat, js: JState, m: nat, pc2: nat, js2: JState, g2: nat)
    requires X.Good()
  {
    pc <= |X.Code()| && pc2 <= |X.Code()| && !js2.c && forall h: nat | h >= m ::
        X.R(pc, js, h) == X.R(pc2, js2, g2 + (h - m))
  }

  ghost predicate ReachesJump(X: Ctx, pc: nat, js: JState, m: nat, js2: JState, g2: nat)
    requires X.Good()
  {
    pc <= |X.Code()| && !js2.c && forall h: nat | h >= m :: X.R(pc, js, h) == X.Jump(js2, g2 + (h - m))
  }

  /** From item `pc` with gas `m` the machine comes to the landing; what is added to `m` is left over. */
  ghost predicate Meets(X: Ctx, pc: nat, js: JState, m: nat, to: Landing)
    requires X.Good()
  {
    && pc <= |X.Code()|
    && match to
       case At(pc2, st, g) => exists js2 :: Same(js2, st) && ReachesAt(X, pc, js, m, pc2, js2, g)
       case Jumping(n, st, g) => exists js2 :: Same(js2, st) && js2.s == n && ReachesJump(X, pc, js, m, js2, g)
       case Returned(v, w, g) => forall h: nat | h >= m :: X.R(pc, js, h) == TDone(v, w, g + (h - m))
       case OutOf(w) => X.R(pc, js, m) == TTimeout(w)
  }

  // ----- composing runs -----

  lemma Then(X: Ctx, pc: nat, js: JState, m: nat, pc2: nat, js2: JState, g2: nat, k: nat, to: Landing)
    requires X.Good() && ReachesAt(X, pc, js, m, pc2, js2, g2) && Meets(X, pc2, js2, g2 + k, to)
    ensures Meets(X, pc, js, m + k, to)
  {
    match to
    case At(pc3, st, g) =>
      var js3 :| Same(js3, st) && ReachesAt(X, pc2, js2, g2 + k, pc3, js3, g);
      assert ReachesAt(X, pc, js, m + k, pc3, js3, g);
    case Jumping(n, st, g) =>
      var js3 :| Same(js3, st) && js3.s == n && ReachesJump(X, pc2, js2, g2 + k, js3, g);
      assert ReachesJump(X, pc, js, m + k, js3, g);
    case Returned(v, w, g) =>
    case OutOf(w) =>
  }

  /** A jump costs one unit and lands on its case. */
  lemma JumpThen(X: Ctx, pc: nat, js: JState, m: nat, js2: JState, g2: nat)
    requires X.Good() && ReachesJump(X, pc, js, m, js2, g2)
    ensures ReachesAt(X, pc, js, m + 1, FindCase(X.Code(), js2.s), js2, g2)
  {
  }

  lemma Arrived(X: Ctx, pc: nat, js: JState, m: nat, pc2: nat, st: State, g: nat) returns (js2: JState)
    requires X.Good() && Meets(X, pc, js, m, At(pc2, st, g))
    ensures Same(js2, st) && !js2.c && ReachesAt(X, pc, js, m, pc2, js2, g)
  {
    js2 :| Same(js2, st) && ReachesAt(X, pc, js, m, pc2, js2, g);
  }

  lemma SitsInside(code: seq<Js>, pc: nat, items: seq<Js>)
    requires Sits(code, pc, items)
    ensures pc <= |code|
  { }

  lemma Stay(X: Ctx, pc: nat, js: JState, g: nat, st: State)
    requires X.Good() && pc <= |X.Code()| && Same(js, st) && !js.c
    ensures Meets(X, pc, js, g, At(pc, st, g))
  {
    assert ReachesAt(X, pc, js, g, pc, js, g);
  }

  lemma OverCase(X: Ctx, pc: nat, js: JState, g: nat)
    requires X.Good() && pc < |X.Code()| && X.Code()[pc].Case? && !js.c
    ensures ReachesAt(X, pc, js, g, pc + 1, js, g)
  {
    forall h: nat | h >= g ensures X.R(pc, js, h) == X.R(pc + 1, js, h) {
      assert Next(CompileProg(X.P), X.O, InPlace, X.f, X.Code(), pc, js, h) == Go(pc + 1, js, h);
    }
  }

  // ----- where the emitted items are -----

  predicate Sits(code: seq<Js>, pc: nat, items: seq<Js>) {
    pc + |items| <= |code| && forall i | 0 <= i < |items| :: code[pc + i] == items[i]
  }

  lemma SitsParts(code: seq<Js>, pc: nat, a: seq<Js>, b: seq<Js>)
    requires Sits(code, pc, a + b)
    ensures Sits(code, pc, a) && Sits(code, pc + |a|, b)
  {
    forall i | 0 <= i < |a| ensures code[pc + i] == a[i] { assert (a + b)[i] == a[i]; }
    forall i | 0 <= i < |b| ensures code[pc + |a| + i] == b[i] { assert (a + b)[|a| + i] == b[i]; }
  }

  lemma CodeIsDistinct(X: Ctx)
    requires X.Good()
    ensures Distinct(X.Code()) && Resumable(X.Code())
  {
    CompiledResumable(X.P[X.f]);
  }

  lemma CaseAt(X: Ctx, pc: nat, n: nat)
    requires X.Good() && pc < |X.Code()| && X.Code()[pc] == Case(n)
    ensures FindCase(X.Code(), n) == pc
  {
    CodeIsDistinct(X);
    CaseFound(X.Code(), pc);
  }

  // ----- statements that are not flattened -----

  ghost function AfterItems(X: Ctx, pc: nat, o: JOut): TOut
    requires X.Good() && pc <= |X.Code()|
  {
    match o
    case JNormal(js, g) => X.R(pc, js, g)
    case JCont(t, js, g) => if t.Named? then TStuck else X.Jump(js, g)
    case JRet(v, w, g) => TDone(v, w, g)
    case JTimeout(w) => TTimeout(w)
    case JBrk(t, js, g) => if t == Inner then TDone(0, js.w, g) else TStuck
    case JStuck => TStuck
  }

  lemma {:induction false} RunItems(X: Ctx, pc: nat, items: seq<Js>, js: JState, g: nat)
    requires X.Good() && Sits(X.Code(), pc, items) && NoCase(items)
    ensures X.R(pc, js, g) == AfterItems(X, pc + |items|, JRun(CompileProg(X.P), items, js, g))
    decreases |items|
  {
    if items != [] {
      var Q := CompileProg(X.P);
      var o := JStep(Q, items[0], js, g);
      assert X.Code()[pc] == items[0];
      assert Ordinary(items[0]);
      assert Next(Q, X.O, InPlace, X.f, X.Code(), pc, js, g) == AfterStep(X.Code(), pc, js, g, o);
      if o.JNormal? {
        assert forall i | 0 <= i < |items| - 1 :: X.Code()[pc + 1 + i] == items[1..][i];
        RunItems(X, pc + 1, items[1..], o.js, o.gas);
      }
    }
  }

  ghost predicate FlatEnv(cx: Scopes, env: Flows) {
    forall l | l in cx :: l in env && (cx[l].canBreak ==> env[l].end > 0) && (cx[l].isLoop ==> env[l].begin > 0)
  }

  lemma SimNested(X: Ctx, pc: nat, s: Stmt, lab: Label, cx: Scopes, env: Flows, n: nat, st: State, js: JState, g: nat)
    requires X.Good() && Ok(X.P, s, lab, cx) && !HasFlat(s) && Agrees(X.P, cx, env) && FlatEnv(cx, env)
    requires Sits(X.Code(), pc, EmitStmt(s, lab, env, n, true).js)
    requires Same(js, st) && !js.c
    ensures Meets(X, pc, js, g, Land(X.P, X.O, env, pc + |EmitStmt(s, lab, env, n, true).js|,
                                     ExecStmt(X.P, X.O, s, lab, st, g)))
  {
    var items := EmitStmt(s, lab, env, n, true).js;
    var o := ExecStmt(X.P, X.O, s, lab, st, g);
    NoCaseInside(X.P, s, lab, cx, env, n);
    NestedStmt(X.P, X.O, s, lab, cx, env, n, true, st, js, g);
    StmtLeaves(X.P, X.O, s, lab, cx, st, g);
    ItemsMeet(X, pc, items, cx, env, o, js, g);
  }

  lemma NoCaseInside(P: Prog, s: Stmt, lab: Label, cx: Scopes, env: Flows, n: nat)
    requires Ok(P, s, lab, cx) && Agrees(P, cx, env) && !HasFlat(s)
    ensures NoCase(EmitStmt(s, lab, env, n, true).js)
  {
    var T := {-1} + (set l | l in env :: env[l].begin as int) + (set l | l in env :: env[l].end as int);
    StmtTidy(P, s, lab, cx, env, n, true, T);
    TidyLoose(EmitStmt(s, lab, env, n, true).js, T, true);
  }

  lemma RunItemsMore(X: Ctx, pc: nat, items: seq<Js>, js: JState, g: nat)
    requires X.Good() && Sits(X.Code(), pc, items) && NoCase(items)
    ensures var jo := JRun(CompileProg(X.P), items, js, g);
            && X.R(pc, js, g) == AfterItems(X, pc + |items|, jo)
            && (!jo.JTimeout? ==> forall h: nat | h >= g ::
                  X.R(pc, js, h) == AfterItems(X, pc + |items|, AddJ(jo, h - g)))
  {
    var jo := JRun(CompileProg(X.P), items, js, g);
    RunItems(X, pc, items, js, g);
    forall h: nat | h >= g && !jo.JTimeout?
      ensures X.R(pc, js, h) == AfterItems(X, pc + |items|, AddJ(jo, h - g))
    {
      RunItems(X, pc, items, js, h);
      ItemsMore(CompileProg(X.P), items, js, g, h - g);
    }
  }

  lemma ItemsMeet(X: Ctx, pc: nat, items: seq<Js>, cx: Scopes, env: Flows, o: Outcome, js: JState, g: nat)
    requires X.Good() && Sits(X.Code(), pc, items) && NoCase(items) && !js.c
    requires Agrees(X.P, cx, env) && FlatEnv(cx, env) && Leaves(o, cx, true)
    requires JRun(CompileProg(X.P), items, js, g) == Img(X.P, X.O, env, o, js)
    ensures Meets(X, pc, js, g, Land(X.P, X.O, env, pc + |items|, o))
  {
    hide Run, Next, JRun, JStep;
    var Q := CompileProg(X.P);
    var jo := JRun(Q, items, js, g);
    if o.Cont? { PostNormal(X.P, X.O, Data(env, o.l).post, o.st, o.gas); }
    RunItemsMore(X, pc, items, js, g);
    match jo
    case JNormal(js2, g2) => assert ReachesAt(X, pc, js, g, pc + |items|, js2, g2);
    case JCont(t, js2, g2) => assert ReachesJump(X, pc, js, g, js2, g2);
    case _ =>
  }

  lemma TakeJump(X: Ctx, pc: nat, l: Label, n: nat, js: JState, g: nat)
    requires X.Good() && Sits(X.Code(), pc, JumpTo(l, n)) && !js.c
    ensures ReachesJump(X, pc, js, g, js.(s := n), g)
  {
    forall h: nat | h >= g ensures X.R(pc, js, h) == X.Jump(js.(s := n), h) {
      RunItems(X, pc, JumpTo(l, n), js, h);
      RunTwo(CompileProg(X.P), SetS(n), ContinueTo(if l.Some? then Machine else Inner), js, h);
    }
  }

  /** `if (c) { $s = n; continue; }` */
  lemma TestJump(X: Ctx, pc: nat, c: Expr, l: Label, n: nat, js: JState, g: nat)
    requires X.Good() && Sits(X.Code(), pc, [JIf(c, JumpTo(l, n), [])]) && !js.c
    ensures if Holds(c, js.locals, js.w) then ReachesJump(X, pc, js, g, js.(s := n), g)
            else ReachesAt(X, pc, js, g, pc + 1, js, g)
  {
    var i := JIf(c, JumpTo(l, n), []);
    forall h: nat | h >= g
      ensures X.R(pc, js, h) == if Holds(c, js.locals, js.w) then X.Jump(js.(s := n), h) else X.R(pc + 1, js, h)
    {
      RunItems(X, pc, [i], js, h);
      RunOne(CompileProg(X.P), i, js, h);
      RunTwo(CompileProg(X.P), SetS(n), ContinueTo(if l.Some? then Machine else Inner), js, h);
    }
  }

  // ----- calls -----

  ghost function Callee(P: Prog, O: Oracle, h: Name, args: seq<int>, w: World, g: nat): FnOutcome {
    if h in P then FnResult(ExecList(P, O, P[h].body, State(Bind(P[h].params, args), w), g))
        else PrimInPlace(O, h, args, w, g)
  }

  /** With gas `m` the call ends as the source does. */
  ghost predicate FnMeets(P: Prog, O: Oracle, h: Name, args: seq<int>, w: World, m: nat, o: FnOutcome) {
    match o
    case Done(v, w', g) =>
      forall m' | m' >= m :: Invoke(CompileProg(P), O, InPlace, h, args, w, m') == TDone(v, w', g + (m' - m))
    case OutOfGas(w') => Invoke(CompileProg(P), O, InPlace, h, args, w, m) == TTimeout(w')
  }

  lemma {:induction false} SimFn(P: Prog, O: Oracle, h: Name, args: seq<int>, w: World, g: nat) returns (k: nat)
    requires OkProg(P)
    ensures FnMeets(P, O, h, args, w, g + k, Callee(P, O, h, args, w, g))
    decreases g, 5
  {
    var Q := CompileProg(P);
    k := 0;
    if h in P && !HasFlatList(P[h].body) {
      NestedFn(P, O, h, args, w, g);
      if Callee(P, O, h, args, w, g).Done? {
        forall m' | m' >= g
          ensures Invoke(Q, O, InPlace, h, args, w, m') == AddT(Invoke(Q, O, InPlace, h, args, w, g), m' - g)
        {
          PlainMore(Q, h, args, w, g, m' - g);
        }
      }
    } else if h in P {
      k := SimFlatFn(P, O, h, args, w, g);
    }
  }

  lemma {:induction false} SimFlatFn(P: Prog, O: Oracle, h: Name, args: seq<int>, w: World, g: nat) returns (k: nat)
    requires OkProg(P) && h in P && HasFlatList(P[h].body)
    ensures FnMeets(P, O, h, args, w, g + k, Callee(P, O, h, args, w, g))
    decreases g, 4
  {
    hide Run, JRun, JStep, JLoop, Next, ExecStmt, EmitStmt, EmitList, ReachesAt, Invoke;
    var X := Ctx(P, O, h);
    var body := P[h].body;
    var st := State(Bind(P[h].params, args), w);
    var js := JState(st.locals, 0, false, JInt(0), w);
    FlatFnSits(X);
    assert Agrees(P, TOP_SCOPE, TOP) && FlatEnv(TOP_SCOPE, TOP);
    k := SimList(X, 1, body, TOP_SCOPE, TOP, 1, st, js, g);
    ListLeaves(P, O, body, TOP_SCOPE, st, g);
    var o := ExecList(P, O, body, st, g);
    EnterFlat(X, args, w);
    if o.Normal? {
      var exit := 1 + |EmitList(body, TOP, 1, true).js|;
      var js2 := Arrived(X, 1, js, g + k, exit, o.st, o.gas);
      FallOffEnd(X, js2);
    }
  }

  lemma FlatFnSits(X: Ctx)
    requires X.Good()
    ensures var b := EmitList(X.P[X.f].body, TOP, 1, true).js;
            && X.Code()[0] == Case(0) && Sits(X.Code(), 1, b)
            && X.Code()[1 + |b|..] == if EndsWithReturn(X.P[X.f].body) then [] else [SetS(-1), JReturn(Num(0))]
  {
    hide Sits, EmitList, EndsWithReturn;
    var b := EmitList(X.P[X.f].body, TOP, 1, true).js;
    ThreeParts(Case(0), b, if EndsWithReturn(X.P[X.f].body) then [] else [SetS(-1), JReturn(Num(0))]);
  }

  lemma ThreeParts(first: Js, b: seq<Js>, c: seq<Js>)
    ensures var code := [first] + (b + c); code[0] == first && Sits(code, 1, b) && code[1 + |b|..] == c
    ensures [first] + b + c == [first] + (b + c)
  { }

  lemma EnterFlat(X: Ctx, args: seq<int>, w: World)
    requires X.Good()
    ensures var js := JState(Bind(X.P[X.f].params, args), 0, false, JInt(0), w);
            forall m: nat :: Invoke(CompileProg(X.P), X.O, InPlace, X.f, args, w, m) == X.R(1, js, m)
  {
    FlatFnSits(X);
    var js := JState(Bind(X.P[X.f].params, args), 0, false, JInt(0), w);
    forall m: nat ensures Invoke(CompileProg(X.P), X.O, InPlace, X.f, args, w, m) == X.R(1, js, m) {
      CaseAt(X, 0, 0);
      OverCase(X, 0, js, m);
      assert X.R(0, js, m) == X.R(1, js, m + 0);
    }
  }

  lemma FallOffEnd(X: Ctx, js: JState)
    requires X.Good() && !js.c
    ensures forall g: nat :: X.R(1 + |EmitList(X.P[X.f].body, TOP, 1, true).js|, js, g) == TDone(0, js.w, g)
  {
    FlatFnSits(X);
    var exit := 1 + |EmitList(X.P[X.f].body, TOP, 1, true).js|;
    forall g: nat ensures X.R(exit, js, g) == TDone(0, js.w, g) {
      if !EndsWithReturn(X.P[X.f].body) {
        var tail := X.Code()[exit..];
        RunItems(X, exit, tail, js, g);
        RunTwo(CompileProg(X.P), SetS(-1), JReturn(Num(0)), js, g);
      }
    }
  }

  lemma {:induction false} SimCall(X: Ctx, pc: nat, x: Name, h: Name, args: seq<Expr>, n: nat, st: State, js: JState,
                                   g: nat) returns (k: nat)
    requires X.Good() && Sits(X.Code(), pc, CallItems(h, args, n) + [TakeResult(x)]) && Same(js, st) && !js.c
    ensures Meets(X, pc, js, g + k, Land(X.P, X.O, TOP, pc + 6,
              AssignResult(st, x, CallFn(X.P, X.O, h, EvalAll(args, st.locals, st.w.globals), st.w, g))))
    decreases g, 0
  {
    var vals := EvalAll(args, st.locals, st.w.globals);
    CallSiteAt(X, pc, x, h, args, n);
    k := 0;
    if g == 0 {
      assert Next(CompileProg(X.P), X.O, InPlace, X.f, X.Code(), pc, js, 0) == Stop(TTimeout(js.w));
    } else {
      k := SimFn(X.P, X.O, h, vals, st.w, g - 1);
      CallMeets(X, pc, x, h, args, n, js, g, k, Callee(X.P, X.O, h, vals, st.w, g - 1));
    }
  }

  lemma CallSiteAt(X: Ctx, pc: nat, x: Name, h: Name, args: seq<Expr>, n: nat)
    requires X.Good() && Sits(X.Code(), pc, CallItems(h, args, n) + [TakeResult(x)])
    ensures pc + 5 < |X.Code()| && X.Code()[pc] == BlockingCall(h, args) && CallSite(X.Code(), pc)
    ensures X.Code()[pc + 1].s == n && X.Code()[pc + 5] == TakeResult(x)
  {
    var items := CallItems(h, args, n) + [TakeResult(x)];
    assert X.Code()[pc + 0] == items[0] && X.Code()[pc + 1] == items[1];
    assert X.Code()[pc + 5] == items[5];
    CodeIsDistinct(X);
  }

  lemma CallMeets(X: Ctx, pc: nat, x: Name, h: Name, args: seq<Expr>, n: nat, js: JState, g: nat, k: nat, o: FnOutcome)
    requires X.Good() && pc + 5 < |X.Code()| && X.Code()[pc] == BlockingCall(h, args) && CallSite(X.Code(), pc)
    requires X.Code()[pc + 1].s == n && X.Code()[pc + 5] == TakeResult(x) && !js.c && g > 0
    requires o.Within(g - 1) && FnMeets(X.P, X.O, h, EvalAll(args, js.locals, js.w.globals), js.w, g - 1 + k, o)
    ensures Meets(X, pc, js, g + k, Land(X.P, X.O, TOP, pc + 6, AssignResult(State(js.locals, js.w), x, o)))
  {
    var vals := EvalAll(args, js.locals, js.w.globals);
    match o
    case OutOfGas(w) =>
      assert Next(CompileProg(X.P), X.O, InPlace, X.f, X.Code(), pc, js, g + k) == Stop(TTimeout(w)) by {
        assert g + k - 1 == g - 1 + k;
      }
    case Done(v, w, g') =>
      var js2 := js.(r := JInt(v), w := w, s := n, locals := js.locals[x := v]);
      forall m: nat | m >= g + k ensures X.R(pc, js, m) == X.R(pc + 6, js2, g' + (m - (g + k))) {
        assert Invoke(CompileProg(X.P), X.O, InPlace, h, vals, js.w, m - 1) == TDone(v, w, g' + (m - 1 - (g - 1 + k)));
        CallReturns(X, pc, x, v, w, js, m, g' + (m - (g + k)));
      }
      assert ReachesAt(X, pc, js, g + k, pc + 6, js2, g');
  }

  lemma CallReturns(X: Ctx, pc: nat, x: Name, v: int, w: World, js: JState, m: nat, left: nat)
    requires X.Good() && pc + 5 < |X.Code()| && CallSite(X.Code(), pc) && X.Code()[pc].BlockingCall?
             && X.Code()[pc + 5] == TakeResult(x)
    requires !js.c && m > 0 && left < m
    requires var i := X.Code()[pc];
             Invoke(CompileProg(X.P), X.O, InPlace, i.f, EvalAll(i.args, js.locals, js.w.globals), js.w, m - 1)
                 == TDone(v, w, left)
    ensures X.R(pc, js, m) ==
            X.R(pc + 6, js.(r := JInt(v), w := w, s := X.Code()[pc + 1].s, locals := js.locals[x := v]), left)
  {
    var Q := CompileProg(X.P);
    var js1 := js.(r := JInt(v), w := w);
    assert Next(Q, X.O, InPlace, X.f, X.Code(), pc, js, m) == Go(pc + 1, js1, left);
    AtReturn(Q, X.O, InPlace, X.f, X.Code(), pc, js1, left);
    var js2 := js1.(s := X.Code()[pc + 1].s);
    assert Next(Q, X.O, InPlace, X.f, X.Code(), pc + 5, js2, left)
        == Go(pc + 6, js2.(locals := js.locals[x := v]), left);
  }

  // ----- flattened statements -----

  lemma {:induction false} SimAtom(X: Ctx, pc: nat, s: Stmt, lab: Label, n: nat, st: State, js: JState, g: nat)
    returns (k: nat)
    requires X.Good() && AtomOk(X.P, s) && Sits(X.Code(), pc, EmitAtom(s, n).js) && Same(js, st) && !js.c
    ensures ExecStmt(X.P, X.O, s, lab, st, g).Normal? || ExecStmt(X.P, X.O, s, lab, st, g).Timeout?
    ensures Meets(X, pc, js, g + k, Land(X.P, X.O, TOP, pc + |EmitAtom(s, n).js|, ExecStmt(X.P, X.O, s, lab, st, g)))
    decreases g, 1, s, 1
  {
    hide Run, JRun, JStep, JLoop, Next, Meets, Sits;
    k := 0;
    if !HasFlat(s) {
      NestedAtom(X.P, X.O, s, lab, n, st, js, g);
      assert NoCase(EmitAtom(s, n).js);
      assert Agrees(X.P, TOP_SCOPE, TOP) && FlatEnv(TOP_SCOPE, TOP);
      ItemsMeet(X, pc, EmitAtom(s, n).js, TOP_SCOPE, TOP, ExecStmt(X.P, X.O, s, lab, st, g), js, g);
    } else if s.Call? {
      k := SimCall(X, pc, s.x, s.f, s.args, n, st, js, g);
    } else {
      k := SimShortCircuit(X, pc, s, lab, n, st, js, g);
    }
  }

  lemma {:induction false} SimShortCircuit(X: Ctx, pc: nat, s: Stmt, lab: Label, n: nat, st: State, js: JState, g: nat)
    returns (k: nat)
    requires X.Good() && s.ShortCircuit? && s.blocking && Sits(X.Code(), pc, EmitAtom(s, n).js) && Same(js, st) && !js.c
    ensures Meets(X, pc, js, g + k, Land(X.P, X.O, TOP, pc + |EmitAtom(s, n).js|, ExecStmt(X.P, X.O, s, lab, st, g)))
    decreases g, 1, s, 0
  {
    hide Run, JRun, JStep, JLoop, Next, ExecList, ReachesJump, ReachesAt;
    var skipped := Do(Assign(s.x, Num(if s.isAnd then 0 else 1)));
    var test := JIf(if s.isAnd then Not(s.e) else s.e, [skipped, SetS(n), ContinueTo(Machine)], []);
    var call := CallItems(s.f, s.args, n + 1) + [TakeResult(s.x)];
    assert EmitAtom(s, n).js == [test] + call + [Case(n)];
    SitsParts(X.Code(), pc, [test] + call, [Case(n)]);
    SitsParts(X.Code(), pc, [test], call);
    assert X.Code()[pc + 7 + 0] == [Case(n)][0];
    if Holds(s.e, st.locals, st.w) == s.isAnd {
      SkipTest(X, pc, test, js, g);
      k := SimCall(X, pc + 1, s.x, s.f, s.args, n + 1, st, js, g);
      var o := ExecStmt(X.P, X.O, s, lab, st, g);
      Then(X, pc, js, g, pc + 1, js, g, k, Land(X.P, X.O, TOP, pc + 7, o));
      if o.Normal? { EndAtCase(X, pc, js, g + k, pc + 7, o.st, o.gas); }
    } else {
      k := 1;
      SkippedCall(X, pc, test, s, n, js, g);
    }
  }

  /** The test settles the value: the jump lands behind the call. */
  lemma SkippedCall(X: Ctx, pc: nat, test: Js, s: Stmt, n: nat, js: JState, g: nat)
    requires X.Good() && s.ShortCircuit? && Holds(s.e, js.locals, js.w) != s.isAnd && !js.c
    requires test == JIf(if s.isAnd then Not(s.e) else s.e, [Do(Assign(s.x, Num(if s.isAnd then 0 else 1))), SetS(n),
                                                             ContinueTo(Machine)], [])
    requires Sits(X.Code(), pc, [test]) && pc + 7 < |X.Code()| && X.Code()[pc + 7] == Case(n)
    ensures Meets(X, pc, js, g + 1, At(pc + 8, State(js.locals[s.x := if s.isAnd then 0 else 1], js.w), g))
  {
    hide Run, JRun, JStep, JLoop, Next, ReachesJump, ReachesAt;
    TestAssignJump(X, pc, test, s.x, if s.isAnd then 0 else 1, n, js, g);
    CaseAt(X, pc + 7, n);
    var js2 := js.(locals := js.locals[s.x := if s.isAnd then 0 else 1], s := n);
    JumpThen(X, pc, js, g, js2, g);
    EndAtCase(X, pc, js, g + 1, pc + 7, State(js2.locals, js2.w), g);
  }

  /** Passing over the `case` that ends a statement. */
  lemma EndAtCase(X: Ctx, pc: nat, js: JState, m: nat, pc2: nat, st: State, g: nat)
    requires X.Good() && pc2 < |X.Code()| && X.Code()[pc2].Case?
    requires Meets(X, pc, js, m, At(pc2, st, g))
    ensures Meets(X, pc, js, m, At(pc2 + 1, st, g))
  {
    var js2 :| Same(js2, st) && ReachesAt(X, pc, js, m, pc2, js2, g);
    forall h: nat | h >= m ensures X.R(pc, js, h) == X.R(pc2 + 1, js2, g + (h - m)) {
      OverCase(X, pc2, js2, g + (h - m));
      assert X.R(pc2, js2, g + (h - m)) == X.R(pc2 + 1, js2, g + (h - m));
    }
    assert ReachesAt(X, pc, js, m, pc2 + 1, js2, g);
  }

  lemma TestAssignJump(X: Ctx, pc: nat, test: Js, x: Name, v: int, n: nat, js: JState, g: nat)
    requires X.Good() && Sits(X.Code(), pc, [test]) && !js.c
    requires test.JIf? && test.thn == [Do(Assign(x, Num(v))), SetS(n), ContinueTo(Machine)]
             && Holds(test.cond, js.locals, js.w)
    ensures ReachesJump(X, pc, js, g, js.(locals := js.locals[x := v], s := n), g)
  {
    var Q := CompileProg(X.P);
    var js1 := js.(locals := js.locals[x := v]);
    forall h: nat | h >= g ensures X.R(pc, js, h) == X.Jump(js1.(s := n), h) {
      RunItems(X, pc, [test], js, h);
      RunOne(Q, test, js, h);
      RunConcat(Q, [test.thn[0]], [SetS(n), ContinueTo(Machine)], js, h);
      assert test.thn == [test.thn[0]] + [SetS(n), ContinueTo(Machine)];
      RunOne(Q, test.thn[0], js, h);
      RunTwo(Q, SetS(n), ContinueTo(Machine), js1, h);
    }
  }

  lemma SkipTest(X: Ctx, pc: nat, i: Js, js: JState, g: nat)
    requires X.Good() && i.JIf? && i.els == [] && Sits(X.Code(), pc, [i]) && !js.c && !Holds(i.cond, js.locals, js.w)
    ensures ReachesAt(X, pc, js, g, pc + 1, js, g)
  {
    forall h: nat | h >= g ensures X.R(pc, js, h) == X.R(pc + 1, js, h) {
      RunItems(X, pc, [i], js, h);
      RunOne(CompileProg(X.P), i, js, h);
    }
  }

  lemma {:induction false} SimPost(X: Ctx, pc: nat, post: Stmts, n: nat, st: State, js: JState, g: nat) returns (k: nat)
    requires X.Good() && PostOk(X.P, post) && Sits(X.Code(), pc, EmitPost(post, n).js) && Same(js, st) && !js.c
    ensures ExecList(X.P, X.O, post, st, g).Normal? || ExecList(X.P, X.O, post, st, g).Timeout?
    ensures Meets(X, pc, js, g + k, Land(X.P, X.O, TOP, pc + |EmitPost(post, n).js|, ExecList(X.P, X.O, post, st, g)))
    decreases g, 1, post, 1
  {
    hide Run, JRun, JStep, JLoop, Next, ExecStmt, EmitAtom, Sits, ReachesAt;
    SitsInside(X.Code(), pc, EmitPost(post, n).js);
    if post.Nil? {
      k := 0;
      Stay(X, pc, js, g, st);
    } else {
      var c := EmitAtom(post.head, n);
      var d := EmitPost(post.tail, c.next);
      SitsParts(X.Code(), pc, c.js, d.js);
      k := SimAtom(X, pc, post.head, None, n, st, js, g);
      var o := ExecStmt(X.P, X.O, post.head, None, st, g);
      if o.Normal? {
        var js2 := Arrived(X, pc, js, g + k, pc + |c.js|, o.st, o.gas);
        var k2 := SimPost(X, pc + |c.js|, post.tail, c.next, o.st, js2, o.gas);
        Then(X, pc, js, g + k, pc + |c.js|, js2, o.gas, k2, Land(X.P, X.O, TOP, pc + |c.js| + |d.js|,
                                                                 ExecList(X.P, X.O, post.tail, o.st, o.gas)));
        k := k + k2;
      }
    }
  }

  lemma {:induction false} SimList(X: Ctx, pc: nat, ss: Stmts, cx: Scopes, env: Flows, n: nat, st: State, js: JState,
                                   g: nat) returns (k: nat)
    requires pc > 0 && X.Good() && OkList(X.P, ss, cx) && Agrees(X.P, cx, env) && FlatEnv(cx, env)
    requires Sits(X.Code(), pc, EmitList(ss, env, n, true).js) && Same(js, st) && !js.c
    ensures Meets(X, pc, js, g + k, Land(X.P, X.O, env, pc + |EmitList(ss, env, n, true).js|,
                                         ExecList(X.P, X.O, ss, st, g)))
    decreases g, 3, ss, 1
  {
    hide Run, JRun, JStep, JLoop, Next, ExecStmt, Agrees, FlatEnv;
    if ss.Nil? {
      k := 0;
      Stay(X, pc, js, g, st);
    } else {
      var c := EmitStmt(ss.head, None, env, n, true);
      var d := EmitList(ss.tail, env, c.next, true);
      SitsParts(X.Code(), pc, c.js, d.js);
      k := SimStmt(X, pc, ss.head, None, cx, env, n, st, js, g);
      var o := ExecStmt(X.P, X.O, ss.head, None, st, g);
      if o.Normal? {
        var js2 :| Same(js2, o.st) && ReachesAt(X, pc, js, g + k, pc + |c.js|, js2, o.gas);
        var k2 := SimList(X, pc + |c.js|, ss.tail, cx, env, c.next, o.st, js2, o.gas);
        Then(X, pc, js, g + k, pc + |c.js|, js2, o.gas, k2, Land(X.P, X.O, env, pc + |c.js| + |d.js|,
                                                                 ExecList(X.P, X.O, ss.tail, o.st, o.gas)));
        k := k + k2;
      }
    }
  }

  lemma {:induction false} SimStmt(X: Ctx, pc: nat, s: Stmt, lab: Label, cx: Scopes, env: Flows, n: nat, st: State,
                                   js: JState, g: nat)
    returns (k: nat)
    requires pc > 0 && X.Good() && Ok(X.P, s, lab, cx) && Agrees(X.P, cx, env) && FlatEnv(cx, env)
    requires Sits(X.Code(), pc, EmitStmt(s, lab, env, n, true).js) && Same(js, st) && !js.c
    ensures Meets(X, pc, js, g + k, Land(X.P, X.O, env, pc + |EmitStmt(s, lab, env, n, true).js|,
                                         ExecStmt(X.P, X.O, s, lab, st, g)))
    decreases g, 3, s, 1
  {
    hide Run, JRun, JStep, JLoop, Next, ExecList, ExecClauses, ExecLoop, EmitList, EmitCases, EmitFlatLoop, EmitPost,
        ReachesAt, Meets, Agrees, FlatEnv, Sits, OkList, OkClauses;
    k := 0;
    if !HasFlat(s) {
      SimNested(X, pc, s, lab, cx, env, n, st, js, g);
    } else {
      match s
      case Block(body) => k := SimList(X, pc, body, cx, env, n, st, js, g);
      case If(cs, _) => k := SimCases(X, pc, cs, cx, env, n, st, js, g);
      case TypeSwitch(cs, _) => k := SimSwitch(X, pc, s, lab, cx, env, n, st, js, g);
      case Switch(body, _) => k := SimSwitch(X, pc, s, lab, cx, env, n, st, js, g);
      case For(_, _, _, _) => k := SimFlatLoop(X, pc, s, lab, cx, env, n, st, js, g);
      case Continue(l, _) => k := SimContinue(X, pc, l, cx, env, n, st, js, g);
      case Labeled(name, s') => k := SimStmt(X, pc, s', Some(name), cx, env, n, st, js, g);
      case Call(_, _, _, _) =>
        k := SimAtom(X, pc, s, lab, n, st, js, g);
        LandAny(X, env, pc + |EmitAtom(s, n).js|, ExecStmt(X.P, X.O, s, lab, st, g));
      case ShortCircuit(_, _, _, _, _, _) =>
        k := SimAtom(X, pc, s, lab, n, st, js, g);
        LandAny(X, env, pc + |EmitAtom(s, n).js|, ExecStmt(X.P, X.O, s, lab, st, g));
      case _ =>
    }
  }

  lemma LandAny(X: Ctx, env: Flows, exit: nat, o: Outcome)
    requires o.Normal? || o.Timeout?
    ensures Land(X.P, X.O, env, exit, o) == Land(X.P, X.O, TOP, exit, o)
  {
  }

  lemma {:induction false} SimContinue(X: Ctx, pc: nat, l: Label, cx: Scopes, env: Flows, n: nat, st: State,
                                       js: JState, g: nat) returns (k: nat)
    requires X.Good() && l in cx && cx[l].isLoop && Agrees(X.P, cx, env) && FlatEnv(cx, env)
    requires Sits(X.Code(), pc, EmitStmt(Continue(l, true), None, env, n, true).js) && Same(js, st) && !js.c
    ensures Meets(X, pc, js, g + k, Land(X.P, X.O, env, 0, Cont(l, st, g)))
    decreases g, 2
  {
    var d := Data(env, l);
    var c := EmitPost(d.post, n);
    SitsParts(X.Code(), pc, c.js, JumpTo(l, d.begin));
    k := SimPost(X, pc, d.post, n, st, js, g);
    var o := ExecList(X.P, X.O, d.post, st, g);
    if o.Normal? { JumpOn(X, pc, js, g + k, pc + |c.js|, l, d.begin, o.st, o.gas); }
  }

  lemma JumpOn(X: Ctx, pc: nat, js: JState, m: nat, pc2: nat, l: Label, n: nat, st: State, g: nat)
    requires X.Good() && Meets(X, pc, js, m, At(pc2, st, g)) && Sits(X.Code(), pc2, JumpTo(l, n))
    ensures Meets(X, pc, js, m, Jumping(n, st, g))
  {
    var js2 :| Same(js2, st) && ReachesAt(X, pc, js, m, pc2, js2, g);
    TakeJump(X, pc2, l, n, js2, g);
    forall h: nat | h >= m ensures X.R(pc, js, h) == X.Jump(js2.(s := n), g + (h - m)) {
      assert X.R(pc2, js2, g + (h - m)) == X.Jump(js2.(s := n), g + (h - m));
    }
    assert ReachesJump(X, pc, js, m, js2.(s := n), g);
  }

  /** A jump to the case that ends a statement. */
  lemma JumpToEnd(X: Ctx, pc: nat, js: JState, m: nat, pc2: nat, n: nat, st: State, g: nat)
    requires X.Good() && pc2 < |X.Code()| && X.Code()[pc2] == Case(n) && Meets(X, pc, js, m, Jumping(n, st, g))
    ensures Meets(X, pc, js, m + 1, At(pc2 + 1, st, g))
  {
    var js2 :| Same(js2, st) && js2.s == n && ReachesJump(X, pc, js, m, js2, g);
    JumpThen(X, pc, js, m, js2, g);
    CaseAt(X, pc2, n);
    assert Meets(X, pc, js, m + 1, At(pc2, st, g));
    EndAtCase(X, pc, js, m + 1, pc2, st, g);
  }

  // ----- flattened branches -----

  /** The case the heads of a chain jump to. */
  ghost function Chosen(cs: Clauses, offset: nat, st: State): nat {
    if cs.Clause? && !Holds(cs.cond, st.locals, st.w) then Chosen(cs.rest, offset + 1, st) else offset
  }

  lemma {:induction false} SimHeads(X: Ctx, pc: nat, cs: Clauses, offset: nat, st: State, js: JState, g: nat)
    requires X.Good() && Sits(X.Code(), pc, Heads(cs, offset) + JumpTo(None, offset + CountClauses(cs)))
             && Same(js, st) && !js.c
    ensures ReachesJump(X, pc, js, g, js.(s := Chosen(cs, offset, st)), g)
    decreases cs
  {
    var jump := JumpTo(None, offset + CountClauses(cs));
    if !cs.Clause? {
      assert Heads(cs, offset) + jump == jump;
      TakeJump(X, pc, None, offset, js, g);
    } else {
      var test := [JIf(cs.cond, JumpTo(None, offset), [])];
      assert Heads(cs, offset) + jump == test + (Heads(cs.rest, offset + 1) + jump);
      SitsParts(X.Code(), pc, test, Heads(cs.rest, offset + 1) + jump);
      TestJump(X, pc, cs.cond, None, offset, js, g);
      if !Holds(cs.cond, st.locals, st.w) {
        SimHeads(X, pc + 1, cs.rest, offset + 1, st, js, g);
      }
    }
  }

  lemma {:induction false} ReturnsAtEnd(P: Prog, O: Oracle, ss: Stmts, st: State, g: nat)
    requires EndsWithReturn(ss)
    ensures !ExecList(P, O, ss, st, g).Normal?
    decreases ss, 1
  {
    var o := ExecStmt(P, O, ss.head, None, st, g);
    if ss.tail.Nil? { ReturnStmtEnds(P, O, ss.head, None, st, g); }
    else if o.Normal? { ReturnsAtEnd(P, O, ss.tail, o.st, o.gas); }
  }

  lemma {:induction false} ReturnStmtEnds(P: Prog, O: Oracle, s: Stmt, lab: Label, st: State, g: nat)
    requires IsReturn(s)
    ensures !ExecStmt(P, O, s, lab, st, g).Normal?
    decreases s, 1
  {
    match s
    case Labeled(name, s') => ReturnStmtEnds(P, O, s', Some(name), st, g);
    case Block(body) => ReturnsAtEnd(P, O, body, st, g);
    case _ =>
  }

  lemma {:induction false} SimBodies(X: Ctx, pc: nat, pcEnd: nat, cs: Clauses, offset: nat, end: nat, cx: Scopes,
                                     env: Flows, n: nat, st: State, js: JState, g: nat) returns (k: nat)
    requires pc > 0 && X.Good() && OkClauses(X.P, cs, cx) && Agrees(X.P, cx, env) && FlatEnv(cx, env)
    requires Sits(X.Code(), pc, EmitBodies(cs, offset, end, env, n, true).js) && EndCase(cs, offset) == end
    requires pcEnd == pc + |EmitBodies(cs, offset, end, env, n, true).js| < |X.Code()| && X.Code()[pcEnd] == Case(end)
    requires Same(js, st) && !js.c
    ensures Meets(X, FindCase(X.Code(), Chosen(cs, offset, st)), js, g + k,
                  Land(X.P, X.O, env, pcEnd + 1, ExecClauses(X.P, X.O, cs, st, g)))
    decreases g, 3, cs, 0
  {
    hide Run, JRun, JStep, JLoop, Next, ExecList, ExecStmt, EmitList, EmitStmt, ReachesAt, Agrees, FlatEnv, OkList;
    match cs
    case End =>
      k := 0;
      CaseAt(X, pcEnd, end);
      Stay(X, pcEnd, js, g, st);
      EndAtCase(X, pcEnd, js, g, pcEnd, st, g);
    case Default(body) =>
      assert EmitList(body, env, n, true).js + [] == EmitList(body, env, n, true).js;
      k := SimBody(X, pc, pcEnd, body, offset, [], end, cx, env, n, st, js, g);
    case Clause(c, body, rest) =>
      var b := EmitList(body, env, n, true);
      var r := EmitBodies(rest, offset + 1, end, env, b.next, true);
      var tail := if !rest.End? && !EndsWithReturn(body) then JumpTo(None, end) else [];
      var first := [Case(offset)] + (b.js + tail);
      SitsParts(X.Code(), pc, first, r.js);
      if Holds(c, st.locals, st.w) {
        if EndsWithReturn(body) { ReturnsAtEnd(X.P, X.O, body, st, g); }
        k := SimBody(X, pc, pcEnd, body, offset, tail, end, cx, env, n, st, js, g);
      } else {
        k := SimBodies(X, pc + |first|, pcEnd, rest, offset + 1, end, cx, env, b.next, st, js, g);
      }
  }

  /** One clause body: its case, its statements, and the jump to the end unless it is the last. */
  lemma {:induction false} SimBody(X: Ctx, pc: nat, pcEnd: nat, body: Stmts, offset: nat, tail: seq<Js>, end: nat,
                                   cx: Scopes, env: Flows, n: nat, st: State, js: JState, g: nat) returns (k: nat)
    requires pc > 0 && X.Good() && OkList(X.P, body, cx) && Agrees(X.P, cx, env) && FlatEnv(cx, env)
    requires Sits(X.Code(), pc, [Case(offset)] + (EmitList(body, env, n, true).js + tail))
    requires pcEnd < |X.Code()| && X.Code()[pcEnd] == Case(end)
    requires tail == JumpTo(None, end) ||
             (tail == [] && (pcEnd == pc + 1 + |EmitList(body, env, n, true).js|
                             || !ExecList(X.P, X.O, body, st, g).Normal?))
    requires Same(js, st) && !js.c
    ensures Meets(X, FindCase(X.Code(), offset), js, g + k, Land(X.P, X.O, env, pcEnd + 1,
                                                                 ExecList(X.P, X.O, body, st, g)))
    decreases g, 3, body, 2
  {
    hide Run, JRun, JStep, JLoop, Next, ExecList, ExecStmt, EmitList, EmitStmt, EmitPost, ReachesAt, Agrees, FlatEnv,
        OkList;
    var b := EmitList(body, env, n, true);
    var o := ExecList(X.P, X.O, body, st, g);
    SitsParts(X.Code(), pc, [Case(offset)], b.js + tail);
    SitsParts(X.Code(), pc + 1, b.js, tail);
    assert X.Code()[pc + 0] == [Case(offset)][0];
    CaseAt(X, pc, offset);
    OverCase(X, pc, js, g);
    k := SimList(X, pc + 1, body, cx, env, n, st, js, g);
    var exit := pc + 1 + |b.js|;
    Then(X, pc, js, g, pc + 1, js, g, k, Land(X.P, X.O, env, exit, o));
    if o.Normal? {
      if tail == [] { EndAtCase(X, pc, js, g + k, pcEnd, o.st, o.gas); }
      else {
        JumpOn(X, pc, js, g + k, exit, None, end, o.st, o.gas);
        JumpToEnd(X, pc, js, g + k, pcEnd, end, o.st, o.gas);
        k := k + 1;
      }
    }
  }

  lemma {:induction false} SimCases(X: Ctx, pc: nat, cs: Clauses, cx: Scopes, env: Flows, n: nat, st: State,
                                    js: JState, g: nat) returns (k: nat)
    requires pc > 0 && X.Good() && OkClauses(X.P, cs, cx) && Agrees(X.P, cx, env) && FlatEnv(cx, env)
    requires Sits(X.Code(), pc, EmitCases(cs, env, n, true).js) && Same(js, st) && !js.c
    ensures Meets(X, pc, js, g + k, Land(X.P, X.O, env, pc + |EmitCases(cs, env, n, true).js|,
                                         ExecClauses(X.P, X.O, cs, st, g)))
    decreases g, 3, cs, 1
  {
    hide Run, JRun, JStep, JLoop, Next, ExecClauses, ExecList, ExecStmt, EmitList, EmitStmt, EmitBodies, Heads, Agrees,
        FlatEnv, OkClauses, OkList;
    var end := EndCase(cs, n);
    var heads := Heads(cs, n) + JumpTo(None, n + CountClauses(cs));
    var b := EmitBodies(cs, n, end, env, end + 1, true);
    SitsParts(X.Code(), pc, heads + b.js, [Case(end)]);
    SitsParts(X.Code(), pc, heads, b.js);
    var pcEnd := pc + |heads| + |b.js|;
    assert X.Code()[pcEnd + 0] == [Case(end)][0];
    SimHeads(X, pc, cs, n, st, js, g);
    var js2 := js.(s := Chosen(cs, n, st));
    JumpThen(X, pc, js, g, js2, g);
    k := SimBodies(X, pc + |heads|, pcEnd, cs, n, end, cx, env, end + 1, st, js2, g);
    Then(X, pc, js, g + 1, FindCase(X.Code(), js2.s), js2, g, k,
         Land(X.P, X.O, env, pcEnd + 1, ExecClauses(X.P, X.O, cs, st, g)));
    k := k + 1;
  }

  lemma NotZero(X: Ctx, pc: nat, n: nat)
    requires X.Good() && 0 < pc < |X.Code()| && X.Code()[pc] == Case(n)
    ensures n > 0
  {
    CompiledResumable(X.P[X.f]);
    CaseAt(X, pc, n);
    CaseAt(X, 0, 0);
  }

  lemma {:induction false} SimSwitch(X: Ctx, pc: nat, s: Stmt, lab: Label, cx: Scopes, env: Flows, n: nat, st: State,
                                     js: JState, g: nat)
    returns (k: nat)
    requires s.Switch? || s.TypeSwitch?
    requires pc > 0 && X.Good() && Ok(X.P, s, lab, cx) && s.flat && Agrees(X.P, cx, env) && FlatEnv(cx, env)
    requires Sits(X.Code(), pc, EmitStmt(s, lab, env, n, true).js) && Same(js, st) && !js.c
    ensures Meets(X, pc, js, g + k, Land(X.P, X.O, env, pc + |EmitStmt(s, lab, env, n, true).js|,
                                         ExecStmt(X.P, X.O, s, lab, st, g)))
    decreases g, 3, s, 0
  {
    hide Run, JRun, JStep, JLoop, Next, ExecClauses, ExecList, ExecLoop, EmitList, EmitBodies, EmitCases, EmitNested,
        Meets, ReachesAt;
    var end := if s.Switch? then n else EndCase(s.clauses, n);
    var pcEnd := pc + |EmitStmt(s, lab, env, n, true).js| - 1;
    SwitchEnd(X, pc, s, lab, env, n);
    var o := SwitchBody(X.P, X.O, s, st, g);
    if s.Switch? {
      var env' := Push(env, lab, SwitchFlow(env, n));
      SitsParts(X.Code(), pc, EmitList(s.body, env', n + 1, true).js, [Case(n)]);
      k := SimList(X, pc, s.body, SwitchScope(cx, lab), env', n + 1, st, js, g);
      ListLeaves(X.P, X.O, s.body, SwitchScope(cx, lab), st, g);
      if o.Normal? { EndAtCase(X, pc, js, g + k, pcEnd, o.st, o.gas); }
    } else {
      k := SimCases(X, pc, s.clauses, SwitchScope(cx, lab), Push(env, lab, SwitchFlow(env, end)), n, st, js, g);
      ClausesLeave(X.P, X.O, s.clauses, SwitchScope(cx, lab), st, g);
    }
    CatchLand(X, pc, js, g + k, pcEnd, lab, cx, env, end, o);
    if o.Brk? && (o.l == None || o.l == lab) { k := k + 1; }
  }

  ghost function SwitchBody(P: Prog, O: Oracle, s: Stmt, st: State, g: nat): Outcome
    requires s.Switch? || s.TypeSwitch?
  {
    if s.Switch? then ExecList(P, O, s.body, st, g) else ExecClauses(P, O, s.clauses, st, g)
  }

  lemma SwitchEnd(X: Ctx, pc: nat, s: Stmt, lab: Label, env: Flows, n: nat)
    requires pc > 0 && X.Good() && (s.Switch? || s.TypeSwitch?) && s.flat
             && Sits(X.Code(), pc, EmitStmt(s, lab, env, n, true).js)
    ensures var end := if s.Switch? then n else EndCase(s.clauses, n);
            var pcEnd := pc + |EmitStmt(s, lab, env, n, true).js| - 1;
            pc <= pcEnd < |X.Code()| && X.Code()[pcEnd] == Case(end) && end > 0
  {
    var end := if s.Switch? then n else EndCase(s.clauses, n);
    var env' := Push(env, lab, SwitchFlow(env, end));
    var items := EmitStmt(s, lab, env, n, true).js;
    if s.Switch? { assert items == EmitList(s.body, env', n + 1, true).js + [Case(end)]; }
    else { assert items == EmitCases(s.clauses, env', n, true).js; }
    assert X.Code()[pc + (|items| - 1)] == items[|items| - 1] == Case(end);
    NotZero(X, pc + |items| - 1, end);
  }

  /** A break out of the statement jumps to the case that ends it. */
  lemma CatchLand(X: Ctx, pc: nat, js: JState, m: nat, pcEnd: nat, lab: Label, cx: Scopes, env: Flows, end: nat,
                  o: Outcome)
    requires X.Good() && pcEnd < |X.Code()| && X.Code()[pcEnd] == Case(end)
    requires Agrees(X.P, cx, env) && (o.Cont? ==> o.l in SwitchScope(cx, lab) && SwitchScope(cx, lab)[o.l].isLoop)
    requires Meets(X, pc, js, m, Land(X.P, X.O, Push(env, lab, SwitchFlow(env, end)), pcEnd + 1, o))
    ensures Meets(X, pc, js, if o.Brk? && (o.l == None || o.l == lab) then m + 1 else m,
                  Land(X.P, X.O, env, pcEnd + 1, CatchBreak(lab, o)))
  {
    if o.Brk? && (o.l == None || o.l == lab) {
      JumpToEnd(X, pc, js, m, pcEnd, end, o.st, o.gas);
    } else {
      assert Land(X.P, X.O, Push(env, lab, SwitchFlow(env, end)), pcEnd + 1, o) == Land(X.P, X.O, env, pcEnd + 1, o);
    }
  }

  // ----- flattened loops -----

  /** The positions of a flattened loop's parts. */
  datatype Parts = Parts(test: seq<Js>, b: Code, p: Code, back: seq<Js>)

  ghost function LoopParts(s: Stmt, lab: Label, env: Flows, n: nat): Parts
    requires s.For?
  {
    var b := EmitList(s.body, Push(env, lab, Flow(s.post, n, n + 1)), n + 2, true);
    Parts(if s.cond.Some? then [JIf(Not(s.cond.value), JumpTo(None, n + 1), [])] else [],
          b,
          if IsTerminated(s.body) then Code([], b.next) else EmitPost(s.post, b.next),
          if IsTerminated(s.body) then [] else JumpTo(None, n))
  }

  lemma LoopSits(X: Ctx, pc: nat, s: Stmt, lab: Label, env: Flows, n: nat)
    requires X.Good() && s.For? && Sits(X.Code(), pc, EmitFlatLoop(s, lab, env, n, true).js)
    ensures var q := LoopParts(s, lab, env, n);
            var pcB := pc + 1 + |q.test|;
            var pcP := pcB + |q.b.js|;
            var pcK := pcP + |q.p.js|;
            var pcE := pcK + |q.back|;
            && Sits(X.Code(), pc + 1, q.test) && Sits(X.Code(), pcB, q.b.js) && Sits(X.Code(), pcP, q.p.js)
            && Sits(X.Code(), pcK, q.back) && pcE < |X.Code()| && X.Code()[pc] == Case(n)
            && X.Code()[pcE] == Case(n + 1)
            && pc + |EmitFlatLoop(s, lab, env, n, true).js| == pcE + 1
  {
    hide Sits, EmitList, EmitPost, IsTerminated;
    var q := LoopParts(s, lab, env, n);
    FivePartsSit(X.Code(), pc, Case(n), q.test, q.b.js, q.p.js, q.back, Case(n + 1));
  }

  lemma FivePartsSit(code: seq<Js>, pc: nat, first: Js, a: seq<Js>, b: seq<Js>, c: seq<Js>, d: seq<Js>, last: Js)
    requires Sits(code, pc, [first] + a + (b + c) + d + [last])
    ensures Sits(code, pc + 1, a) && Sits(code, pc + 1 + |a|, b) && Sits(code, pc + 1 + |a| + |b|, c)
    ensures Sits(code, pc + 1 + |a| + |b| + |c|, d) && pc + 1 + |a| + |b| + |c| + |d| < |code|
    ensures code[pc] == first && code[pc + 1 + |a| + |b| + |c| + |d|] == last
  {
    hide Sits;
    SitsParts(code, pc, [first] + a + (b + c) + d, [last]);
    SitsParts(code, pc, [first] + a + (b + c), d);
    SitsParts(code, pc, [first] + a, b + c);
    SitsParts(code, pc, [first], a);
    SitsParts(code, pc + 1 + |a|, b, c);
    OneSits(code, pc, first);
    OneSits(code, pc + 1 + |a| + |b| + |c| + |d|, last);
  }

  lemma OneSits(code: seq<Js>, pc: nat, x: Js)
    requires Sits(code, pc, [x])
    ensures pc < |code| && code[pc] == x
  {
    assert code[pc + 0] == [x][0];
  }

  /** Into the loop: past the test, or out of the loop. */
  lemma SimTest(X: Ctx, pc: nat, s: Stmt, lab: Label, env: Flows, n: nat, st: State, js: JState, g: nat)
    requires X.Good() && s.For? && Sits(X.Code(), pc, EmitFlatLoop(s, lab, env, n, true).js) && Same(js, st) && !js.c
    ensures var pcB := pc + 1 + |LoopParts(s, lab, env, n).test|;
            if Exits(s, st) then Meets(X, pc, js, g, Jumping(n + 1, st, g)) else ReachesAt(X, pc, js, g, pcB, js, g)
  {
    var q := LoopParts(s, lab, env, n);
    LoopSits(X, pc, s, lab, env, n);
    OverCase(X, pc, js, g);
    if s.cond.Some? {
      TestJump(X, pc + 1, Not(s.cond.value), None, n + 1, js, g);
      if Exits(s, st) {
        assert ReachesJump(X, pc, js, g, js.(s := n + 1), g);
      } else {
        assert ReachesAt(X, pc, js, g, pc + 2, js, g);
      }
    }
  }

  /** Where one turn of the loop leads: back to the beginning, or out. */
  ghost function TurnLand(X: Ctx, s: Stmt, lab: Label, env: Flows, n: nat, o: Outcome): Landing
    requires s.For?
  {
    var t := TurnEnd(X.P, X.O, s, lab, o);
    if GoesOn(lab, o) then (if t.Normal? then Jumping(n, t.st, t.gas) else if t.Timeout? then OutOf(t.w)
                            else OutOf(o.st.w))
    else Land(X.P, X.O, Push(env, lab, Flow(s.post, n, n + 1)), 0, o)
  }

  lemma {:induction false} SimTurn(X: Ctx, pc: nat, s: Stmt, lab: Label, cx: Scopes, env: Flows, n: nat, st: State,
                                   js: JState, g: nat)
    returns (k: nat)
    requires pc > 0 && X.Good() && s.For? && s.flat && Ok(X.P, s, lab, cx) && Agrees(X.P, cx, env) && FlatEnv(cx, env)
    requires Sits(X.Code(), pc, EmitFlatLoop(s, lab, env, n, true).js) && Same(js, st) && !js.c && !Exits(s, st)
    ensures Meets(X, pc, js, g + k, TurnLand(X, s, lab, env, n, ExecList(X.P, X.O, s.body, st, g)))
    decreases g, 3, s, 0, 0
  {
    hide Run, JRun, JStep, JLoop, Next, ExecStmt, EmitList, EmitStmt, Agrees, FlatEnv, OkList, Sits, EmitFlatLoop,
        EmitPost;
    var q := LoopParts(s, lab, env, n);
    var pcP := pc + 1 + |q.test| + |q.b.js|;
    k := SimLoopBody(X, pc, s, lab, cx, env, n, st, js, g);
    var o := ExecList(X.P, X.O, s.body, st, g);
    if o.Normal? {
      var js2 :| Same(js2, o.st) && ReachesAt(X, pc, js, g + k, pcP, js2, o.gas);
      if IsTerminated(s.body) { TerminatedNotNormal(X.P, X.O, s.body, st, g); }
      LoopSits(X, pc, s, lab, env, n);
      var k2 := SimTurnPost(X, pcP, s, q, n, o.st, js2, o.gas);
      Then(X, pc, js, g + k, pcP, js2, o.gas, k2, TurnLand(X, s, lab, env, n, o));
      k := k + k2;
    } else if GoesOn(lab, o) {
      PostNormal(X.P, X.O, s.post, o.st, o.gas);
    }
  }

  lemma {:induction false} SimLoopBody(X: Ctx, pc: nat, s: Stmt, lab: Label, cx: Scopes, env: Flows, n: nat, st: State,
                                       js: JState, g: nat)
    returns (k: nat)
    requires pc > 0 && X.Good() && s.For? && s.flat && Ok(X.P, s, lab, cx) && Agrees(X.P, cx, env) && FlatEnv(cx, env)
    requires Sits(X.Code(), pc, EmitFlatLoop(s, lab, env, n, true).js) && Same(js, st) && !js.c && !Exits(s, st)
    ensures var q := LoopParts(s, lab, env, n);
            Meets(X, pc, js, g + k, Land(X.P, X.O, Push(env, lab, Flow(s.post, n, n + 1)), pc + 1 + |q.test| + |q.b.js|,
                                         ExecList(X.P, X.O, s.body, st, g)))
    decreases g, 3, s, 0, -1
  {
    hide Run, JRun, JStep, JLoop, Next, ExecList, ExecStmt, EmitList, EmitStmt, EmitFlatLoop, EmitPost, ReachesAt,
        Meets;
    var q := LoopParts(s, lab, env, n);
    var env' := Push(env, lab, Flow(s.post, n, n + 1));
    LoopSits(X, pc, s, lab, env, n);
    NotZero(X, pc, n);
    SimTest(X, pc, s, lab, env, n, st, js, g);
    var pcB := pc + 1 + |q.test|;
    k := SimList(X, pcB, s.body, LoopScope(cx, lab, s.post), env', n + 2, st, js, g);
    Then(X, pc, js, g, pcB, js, g, k, Land(X.P, X.O, env', pcB + |q.b.js|, ExecList(X.P, X.O, s.body, st, g)));
  }

  lemma {:induction false} SimTurnPost(X: Ctx, pc: nat, s: Stmt, q: Parts, n: nat, st: State, js: JState, g: nat)
    returns (k: nat)
    requires X.Good() && s.For? && PostOk(X.P, s.post) && !IsTerminated(s.body) && q.p == EmitPost(s.post, q.b.next)
    requires Sits(X.Code(), pc, q.p.js) && Sits(X.Code(), pc + |q.p.js|, JumpTo(None, n)) && Same(js, st) && !js.c
    ensures var t := ExecList(X.P, X.O, s.post, st, g);
            if t.Normal? then Meets(X, pc, js, g + k, Jumping(n, t.st, t.gas))
                else t.Timeout? && Meets(X, pc, js, g + k, OutOf(t.w))
    decreases g, 2
  {
    k := SimPost(X, pc, s.post, q.b.next, st, js, g);
    var t := ExecList(X.P, X.O, s.post, st, g);
    if t.Normal? { JumpOn(X, pc, js, g + k, pc + |q.p.js|, None, n, t.st, t.gas); }
  }

  /** The back-edge: the jump to the loop's case costs what the source charges for it. */
  lemma BackEdge(X: Ctx, pc: nat, js: JState, m: nat, n: nat, js3: JState, g: nat)
    requires X.Good() && pc < |X.Code()| && X.Code()[pc] == Case(n) && js3.s == n && ReachesJump(X, pc, js, m, js3, g)
    ensures g == 0 ==> X.R(pc, js, m) == TTimeout(js3.w)
    ensures g > 0 ==> ReachesAt(X, pc, js, m, pc, js3, g - 1)
  {
    CaseAt(X, pc, n);
    if g == 0 { assert X.R(pc, js, m) == X.Jump(js3, 0); }
    else {
      forall h: nat | h >= m ensures X.R(pc, js, h) == X.R(pc, js3, g - 1 + (h - m)) {
        assert X.R(pc, js, h) == X.Jump(js3, g + (h - m));
      }
    }
  }

  lemma {:induction false} SimFlatLoop(X: Ctx, pc: nat, s: Stmt, lab: Label, cx: Scopes, env: Flows, n: nat, st: State,
                                       js: JState, g: nat)
    returns (k: nat)
    requires pc > 0 && X.Good() && s.For? && s.flat && Ok(X.P, s, lab, cx) && Agrees(X.P, cx, env) && FlatEnv(cx, env)
    requires Sits(X.Code(), pc, EmitFlatLoop(s, lab, env, n, true).js) && Same(js, st) && !js.c
    ensures Meets(X, pc, js, g + k,
                  Land(X.P, X.O, env, pc + |EmitFlatLoop(s, lab, env, n, true).js|, ExecLoop(X.P, X.O, s, lab, st, g)))
    decreases g, 3, s, 0, 1
  {
    hide Run, JRun, JStep, JLoop, Next, OkList, ExecList, ExecStmt, EmitList, EmitStmt, EmitFlatLoop, EmitPost,
        ReachesAt, Agrees, FlatEnv;
    var exit := pc + |EmitFlatLoop(s, lab, env, n, true).js|;
    if Exits(s, st) {
      SimExit(X, pc, s, lab, env, n, st, js, g);
      k := 1;
    } else {
      LoopSits(X, pc, s, lab, env, n);
      k := SimTurn(X, pc, s, lab, cx, env, n, st, js, g);
      var o := ExecList(X.P, X.O, s.body, st, g);
      var t := TurnEnd(X.P, X.O, s, lab, o);
      if GoesOn(lab, o) && t.Normal? {
        var js3 :| Same(js3, t.st) && js3.s == n && ReachesJump(X, pc, js, g + k, js3, t.gas);
        BackEdge(X, pc, js, g + k, n, js3, t.gas);
        if t.gas > 0 {
          var k2 := SimFlatLoop(X, pc, s, lab, cx, env, n, t.st, js3, t.gas - 1);
          Then(X, pc, js, g + k, pc, js3, t.gas - 1, k2, Land(X.P, X.O, env, exit,
                                                              ExecLoop(X.P, X.O, s, lab, t.st, t.gas - 1)));
          k := k + k2;
        }
      } else {
        LeaveLoop(X, pc, js, g + k, s, lab, env, n, exit, st, g);
        if !GoesOn(lab, o) && o.Brk? && (o.l == None || o.l == lab) { k := k + 1; }
      }
    }
  }

  /** The test fails: on behind the loop's end. */
  lemma SimExit(X: Ctx, pc: nat, s: Stmt, lab: Label, env: Flows, n: nat, st: State, js: JState, g: nat)
    requires X.Good() && s.For? && Sits(X.Code(), pc, EmitFlatLoop(s, lab, env, n, true).js) && Same(js, st) && !js.c
             && Exits(s, st)
    ensures Meets(X, pc, js, g + 1,
                  Land(X.P, X.O, env, pc + |EmitFlatLoop(s, lab, env, n, true).js|, ExecLoop(X.P, X.O, s, lab, st, g)))
  {
    hide Run, JRun, JStep, JLoop, Next, ExecList, ExecStmt, EmitList, EmitStmt, EmitFlatLoop, EmitPost, ReachesAt;
    LoopSits(X, pc, s, lab, env, n);
    SimTest(X, pc, s, lab, env, n, st, js, g);
    JumpToEnd(X, pc, js, g, pc + |EmitFlatLoop(s, lab, env, n, true).js| - 1, n + 1, st, g);
  }

  /** A turn that does not come back to the beginning. */
  lemma LeaveLoop(X: Ctx, pc: nat, js: JState, m: nat, s: Stmt, lab: Label, env: Flows, n: nat, exit: nat, st: State,
                  g: nat)
    requires X.Good() && s.For? && PostOk(X.P, s.post) && !Exits(s, st)
    requires 0 < exit <= |X.Code()| && X.Code()[exit - 1] == Case(n + 1)
    requires var o := ExecList(X.P, X.O, s.body, st, g);
             && Meets(X, pc, js, m, TurnLand(X, s, lab, env, n, o))
             && (GoesOn(lab, o) ==> !TurnEnd(X.P, X.O, s, lab, o).Normal?)
    ensures var o := ExecList(X.P, X.O, s.body, st, g);
            Meets(X, pc, js, if !GoesOn(lab, o) && o.Brk? && (o.l == None || o.l == lab) then m + 1 else m,
                  Land(X.P, X.O, env, exit, ExecLoop(X.P, X.O, s, lab, st, g)))
  {
    var o := ExecList(X.P, X.O, s.body, st, g);
    if GoesOn(lab, o) {
      PostNormal(X.P, X.O, s.post, o.st, o.gas);
    } else if o.Brk? && (o.l == None || o.l == lab) {
      JumpToEnd(X, pc, js, m, exit - 1, n + 1, o.st, o.gas);
    } else {
      OtherLand(X, s, lab, env, n, exit, o);
    }
  }

  lemma OtherLand(X: Ctx, s: Stmt, lab: Label, env: Flows, n: nat, exit: nat, o: Outcome)
    requires s.For? && !GoesOn(lab, o) && !(o.Brk? && (o.l == None || o.l == lab))
    ensures TurnLand(X, s, lab, env, n, o) == Land(X.P, X.O, env, exit, CatchBreak(lab, o))
  {
  }
}
