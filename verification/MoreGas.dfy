/** A run that ends goes the same way with more gas and keeps what was added. */
module MoreGas {
  import opened GoSource
  import opened JsMachine

  ghost function AddJ(o: JOut, e: nat): JOut {
    match o
    case JNormal(js, g) => JNormal(js, g + e)
    case JBrk(t, js, g) => JBrk(t, js, g + e)
    case JCont(t, js, g) => JCont(t, js, g + e)
    case JRet(v, w, g) => JRet(v, w, g + e)
    case _ => o
  }

  ghost function AddT(o: TOut, e: nat): TOut {
    match o
    case TDone(v, w, g) => TDone(v, w, g + e)
    case TSusp(fr, w, g) => TSusp(fr, w, g + e)
    case _ => o
  }

  lemma {:induction false} StepMore(Q: JProg, i: Js, js: JState, g: nat, e: nat)
    requires !JStep(Q, i, js, g).JTimeout?
    ensures JStep(Q, i, js, g + e) == AddJ(JStep(Q, i, js, g), e)
    decreases g, 1, i, 1
  {
    match i
    case JIf(c, thn, els) => ItemsMore(Q, if Holds(c, js.locals, js.w) then thn else els, js, g, e);
    case JWhile(_, _) => LoopMore(Q, i, js, g, e);
    case JSwitch0(lab, body) => ItemsMore(Q, body, js, g, e);
    case PlainCall(x, f, args) => PlainMore(Q, f, EvalAll(args, js.locals, js.w.globals), js.w, g - 1, e);
    case _ =>
  }

  lemma {:induction false} ItemsMore(Q: JProg, items: seq<Js>, js: JState, g: nat, e: nat)
    requires !JRun(Q, items, js, g).JTimeout?
    ensures JRun(Q, items, js, g + e) == AddJ(JRun(Q, items, js, g), e)
    decreases g, 1, items, 1
  {
    if items != [] {
      StepMore(Q, items[0], js, g, e);
      var o := JStep(Q, items[0], js, g);
      if o.JNormal? { ItemsMore(Q, items[1..], o.js, o.gas, e); }
    }
  }

  lemma {:induction false} LoopMore(Q: JProg, i: Js, js: JState, g: nat, e: nat)
    requires i.JWhile? && !JLoop(Q, i, js, g).JTimeout?
    ensures JLoop(Q, i, js, g + e) == AddJ(JLoop(Q, i, js, g), e)
    decreases g, 1, i, 0
  {
    ItemsMore(Q, i.body, js, g, e);
    var o := JRun(Q, i.body, js, g);
    if o.JNormal? || (o.JCont? && Hits(o.t, i.lab)) {
      LoopMore(Q, i, o.js, o.gas - 1, e);
    }
  }

  lemma {:induction false} PlainMore(Q: JProg, f: Name, args: seq<int>, w: World, g: nat, e: nat)
    requires !JPlain(Q, f, args, w, g).JTimeout?
    ensures JPlain(Q, f, args, w, g + e) == AddJ(JPlain(Q, f, args, w, g), e)
    decreases g, 2
  {
    if f in Q && Q[f].Plain? {
      ItemsMore(Q, Q[f].items, JState(Bind(Q[f].params, args), 0, false, JInt(0), w), g, e);
    }
  }

  lemma {:induction false} InvokeMore(Q: JProg, O: Oracle, mode: Mode, f: Name, args: seq<int>, w: World, g: nat,
                                      e: nat)
    requires !Invoke(Q, O, mode, f, args, w, g).TTimeout?
    ensures Invoke(Q, O, mode, f, args, w, g + e) == AddT(Invoke(Q, O, mode, f, args, w, g), e)
    decreases g, 0, 1, 0
  {
    if f in Q {
      if Q[f].Plain? { PlainMore(Q, f, args, w, g, e); }
      else {
        var code := Q[f].code;
        RunMore(Q, O, mode, f, code, FindCase(code, 0), JState(Bind(Q[f].params, args), 0, false, JInt(0), w), g, e);
      }
    }
  }

  lemma {:induction false} ResumeMore(Q: JProg, O: Oracle, mode: Mode, fr: Frame, w: World, g: nat, e: nat)
    requires !Resume(Q, O, mode, fr, w, g).TTimeout?
    ensures Resume(Q, O, mode, fr, w, g + e) == AddT(Resume(Q, O, mode, fr, w, g), e)
    decreases g, FrameSize(fr), 1, 0
  {
    if fr.FnFrame? && fr.f in Q && Q[fr.f].Flat? {
      var code := Q[fr.f].code;
      RunMore(Q, O, mode, fr.f, code, FindCase(code, fr.s), JState(fr.locals, fr.s, true, fr.r, w), g, e);
    }
  }

  ghost predicate OutOfTime(m: Move) {
    m.Stop? && m.o.TTimeout?
  }

  ghost function AddM(m: Move, e: nat): Move {
    match m
    case Go(pc, js, g) => Go(pc, js, g + e)
    case Stop(o) => Stop(AddT(o, e))
  }

  lemma AfterStepMore(code: seq<Js>, pc: nat, js: JState, g: nat, o: JOut, e: nat)
    requires pc < |code| && o.From(js, g) && AddJ(o, e).From(js, g + e) && !OutOfTime(AfterStep(code, pc, js, g, o))
    ensures AfterStep(code, pc, js, g + e, AddJ(o, e)) == AddM(AfterStep(code, pc, js, g, o), e)
  {
  }

  lemma AfterCallMore(pc: nat, js: JState, g: nat, o: TOut, e: nat)
    requires o.Within(g) && AddT(o, e).Within(g + e)
    ensures AfterCall(pc, js, g + e, AddT(o, e)) == AddM(AfterCall(pc, js, g, o), e)
  {
  }

  lemma OrdinaryMore(Q: JProg, O: Oracle, mode: Mode, f: Name, code: seq<Js>, pc: nat, js: JState, g: nat, e: nat)
    requires pc < |code| && Ordinary(code[pc]) && !OutOfTime(Next(Q, O, mode, f, code, pc, js, g))
    ensures Next(Q, O, mode, f, code, pc, js, g + e) == AddM(Next(Q, O, mode, f, code, pc, js, g), e)
  {
    var o := JStep(Q, code[pc], js, g);
    assert Next(Q, O, mode, f, code, pc, js, g) == AfterStep(code, pc, js, g, o);
    StepMore(Q, code[pc], js, g, e);
    AfterStepMore(code, pc, js, g, o, e);
  }

  lemma {:induction false} NextMore(Q: JProg, O: Oracle, mode: Mode, f: Name, code: seq<Js>, pc: nat, js: JState,
                                    g: nat, e: nat)
    requires pc < |code| && !OutOfTime(Next(Q, O, mode, f, code, pc, js, g))
    ensures Next(Q, O, mode, f, code, pc, js, g + e) == AddM(Next(Q, O, mode, f, code, pc, js, g), e)
    decreases g, if js.c then 1 + ValSize(js.r) else 0, 0, |code| - pc, 0
  {
    var i := code[pc];
    if i.BlockingCall? {
      var vals := EvalAll(i.args, js.locals, js.w.globals);
      InvokeMore(Q, O, mode, i.f, vals, js.w, g - 1, e);
      AfterCallMore(pc, js, g - 1, Invoke(Q, O, mode, i.f, vals, js.w, g - 1), e);
    } else if i.ResumeCheck? {
      if js.c && js.r.JObj? {
        ResumeMore(Q, O, mode, js.r.frame, js.w, g, e);
        AfterCallMore(pc, js.(c := false), g, Resume(Q, O, mode, js.r.frame, js.w, g), e);
      }
    } else if Ordinary(i) {
      OrdinaryMore(Q, O, mode, f, code, pc, js, g, e);
    }
  }

  lemma {:induction false} RunMore(Q: JProg, O: Oracle, mode: Mode, f: Name, code: seq<Js>, pc: nat, js: JState,
                                   g: nat, e: nat)
    requires pc <= |code| && !Run(Q, O, mode, f, code, pc, js, g).TTimeout?
    ensures Run(Q, O, mode, f, code, pc, js, g + e) == AddT(Run(Q, O, mode, f, code, pc, js, g), e)
    decreases g, if js.c then 1 + ValSize(js.r) else 0, 0, |code| - pc, 1
  {
    if pc < |code| {
      NextMore(Q, O, mode, f, code, pc, js, g, e);
      var m := Next(Q, O, mode, f, code, pc, js, g);
      if m.Go? { RunMore(Q, O, mode, f, code, m.pc, m.js, m.gas, e); }
    }
  }
}
