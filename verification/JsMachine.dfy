/** The JavaScript side: the statements the compiler emits and how they run.

    A function with flattened nodes is `s: while (true) { switch ($s) { case 0: ... } return; }`;
    its code is a sequence of items, some of which are `case` labels.  Its activation is the
    locals, $s, $c and $r.  A call that parks returns an object with a $blk method: the frame.
    Gas: one unit for a call, for a back-edge of a JavaScript loop and for a jump through $s. */
module JsMachine {
  import opened GoSource

  /** Where a `break` or `continue` goes: the innermost statement, a labelled one, or the loop `s`. */
  datatype Target = Inner | Named(name: Name) | Machine

  datatype Js =
    | Case(n: nat)
    | Do(b: Basic)
    | SetS(s: int)
    | ContinueTo(t: Target)
    | BreakTo(t: Target)
    | JReturn(e: Expr)
    | JIf(cond: Expr, thn: seq<Js>, els: seq<Js>)
    | JWhile(lab: Label, body: seq<Js>)
    | JSwitch0(lab: Label, body: seq<Js>)
    | PlainCall(x: Name, f: Name, args: seq<Expr>)    // x = f(args)
    | BlockingCall(f: Name, args: seq<Expr>)          // $r = f(args)
    | ResumeCheck                                     // if ($c) { $c = false; $r = $r.$blk(); }
    | UnwindCheck                                     // if ($r && $r.$blk !== undefined) { break s; }
    | TakeResult(x: Name)                             // x = $r

  datatype JFunc = Plain(params: seq<Name>, items: seq<Js>) | Flat(params: seq<Name>, code: seq<Js>)
  type JProg = map<Name, JFunc>

  datatype JVal = JInt(n: int) | JObj(frame: Frame)
  /** `{$blk: f, $c: true, $r, locals, $s}`, or what a parked primitive returns. */
  datatype Frame = FnFrame(f: Name, s: int, locals: Vars, r: JVal) | PrimFrame(value: int)

  datatype JState = JState(locals: Vars, s: int, c: bool, r: JVal, w: World)

  datatype JOut =
    | JNormal(js: JState, gas: nat)
    | JBrk(t: Target, js: JState, gas: nat)
    | JCont(t: Target, js: JState, gas: nat)
    | JRet(v: int, w: World, gas: nat)
    | JTimeout(w: World)
    | JStuck
  {
    /** No gas is made, and only a `case` of the enclosing machine touches $c and $r. */
    predicate From(j: JState, g: nat) {
      match this
      case JNormal(js, gas) => gas <= g && js.c == j.c && js.r == j.r
      case JBrk(_, js, gas) => gas <= g && js.c == j.c && js.r == j.r
      case JCont(_, js, gas) => gas <= g && js.c == j.c && js.r == j.r
      case JRet(_, _, gas) => gas <= g
      case _ => true
    }
  }

  // ----- ordinary statements -----

  predicate Hits(t: Target, lab: Label) {
    t == Inner || (lab.Some? && t == Named(lab.value))
  }

  function JStep(Q: JProg, i: Js, js: JState, g: nat): (o: JOut)
    ensures o.From(js, g)
    decreases g, 1, i, 1
  {
    match i
    case Do(b) =>
      var (locals, w) := Apply(b, js.locals, js.w);
      JNormal(js.(locals := locals, w := w), g)
    case SetS(s) => JNormal(js.(s := s), g)
    case ContinueTo(t) => JCont(t, js, g)
    case BreakTo(t) => JBrk(t, js, g)
    case JReturn(e) => JRet(Eval(e, js.locals, js.w.globals), js.w, g)
    case JIf(c, thn, els) =>
      if Holds(c, js.locals, js.w) then JRun(Q, thn, js, g) else JRun(Q, els, js, g)
    case JWhile(_, _) => JLoop(Q, i, js, g)
    case JSwitch0(lab, body) =>
      var o := JRun(Q, body, js, g);
      if o.JBrk? && Hits(o.t, lab) then JNormal(o.js, o.gas) else o
    case PlainCall(x, f, args) =>
      if g == 0 then JTimeout(js.w)
      else AssignReturn(js, x, JPlain(Q, f, EvalAll(args, js.locals, js.w.globals), js.w, g - 1))
    case TakeResult(x) => if js.r.JInt? then JNormal(js.(locals := js.locals[x := js.r.n]), g) else JStuck
    case _ => JStuck
  }

  function AssignReturn(js: JState, x: Name, o: JOut): JOut {
    match o
    case JRet(v, w, g) => JNormal(js.(locals := js.locals[x := v], w := w), g)
    case JTimeout(w) => o
    case _ => JStuck
  }

  function JRun(Q: JProg, items: seq<Js>, js: JState, g: nat): (o: JOut)
    ensures o.From(js, g)
    decreases g, 1, items, 1
  {
    if items == [] then JNormal(js, g)
    else
      var o := JStep(Q, items[0], js, g);
      if o.JNormal? then JRun(Q, items[1..], o.js, o.gas) else o
  }

  function JLoop(Q: JProg, i: Js, js: JState, g: nat): (o: JOut)
    requires i.JWhile?
    ensures o.From(js, g)
    decreases g, 1, i, 0
  {
    var o := JRun(Q, i.body, js, g);
    if o.JNormal? || (o.JCont? && Hits(o.t, i.lab)) then
      if o.gas == 0 then JTimeout(o.js.w) else JLoop(Q, i, o.js, o.gas - 1)
    else if o.JBrk? && Hits(o.t, i.lab) then JNormal(o.js, o.gas)
    else o
  }

  /** A call of a function that was not flattened; it cannot park. */
  function JPlain(Q: JProg, f: Name, args: seq<int>, w: World, g: nat): (o: JOut)
    ensures o.JRet? ==> o.gas <= g
    decreases g, 2
  {
    if f in Q && Q[f].Plain? then
      var o := JRun(Q, Q[f].items, JState(Bind(Q[f].params, args), 0, false, JInt(0), w), g);
      if o.JNormal? then JRet(0, o.js.w, o.gas) else if o.JRet? || o.JTimeout? then o else JStuck
    else JStuck
  }

  // ----- flattened functions -----

  datatype TOut = TDone(v: int, w: World, gas: nat) | TSusp(fr: Frame, w: World, gas: nat) | TTimeout(w: World) | TStuck
  {
    predicate Within(g: nat) {
      (TDone? || TSusp?) ==> gas <= g
    }
  }

  /** Parking as the runtime does it, or with the activation kept on the stack until it is woken. */
  datatype Mode = InPlace | Unwinding

  /** Entering `switch ($s)`: the item of `case s`, or past the end. */
  function FindCase(code: seq<Js>, s: int): (k: nat)
    ensures k <= |code|
    ensures k < |code| ==> code[k].Case? && code[k].n == s
  {
    if code == [] then 0
    else if code[0].Case? && code[0].n == s then 0
    else 1 + FindCase(code[1..], s)
  }

  function ValSize(v: JVal): nat { if v.JInt? then 0 else 1 + FrameSize(v.frame) }
  function FrameSize(fr: Frame): nat { if fr.PrimFrame? then 1 else 1 + ValSize(fr.r) }

  function FromPlain(o: JOut): TOut {
    match o
    case JRet(v, w, g) => TDone(v, w, g)
    case JTimeout(w) => TTimeout(w)
    case _ => TStuck
  }

  function CallPrim(O: Oracle, mode: Mode, f: Name, args: seq<int>, w: World, g: nat): (o: TOut)
    ensures o.Within(g)
  {
    var a := O(w.tick);
    if mode == Unwinding && a.parks then TSusp(PrimFrame(a.value), StartPrim(w, f, args), g)
    else match PrimInPlace(O, f, args, w, g)
      case Done(v, w', g') => TDone(v, w', g')
      case OutOfGas(w') => TTimeout(w')
  }

  function Invoke(Q: JProg, O: Oracle, mode: Mode, f: Name, args: seq<int>, w: World, g: nat): (o: TOut)
    ensures o.Within(g)
    decreases g, 0, 1, 0
  {
    if f !in Q then CallPrim(O, mode, f, args, w, g)
    else if Q[f].Plain? then FromPlain(JPlain(Q, f, args, w, g))
    else
      var code := Q[f].code;
      Run(Q, O, mode, f, code, FindCase(code, 0), JState(Bind(Q[f].params, args), 0, false, JInt(0), w), g)
  }

  /** `fr.$blk()`: the saved locals, $s and $r come back and $c is true. */
  function Resume(Q: JProg, O: Oracle, mode: Mode, fr: Frame, w: World, g: nat): (o: TOut)
    ensures o.Within(g)
    decreases g, FrameSize(fr), 1, 0
  {
    match fr
    case PrimFrame(v) => TDone(v, w, g)
    case FnFrame(f, s, locals, r) =>
      if f in Q && Q[f].Flat? then
        var code := Q[f].code;
        Run(Q, O, mode, f, code, FindCase(code, s), JState(locals, s, true, r, w), g)
      else TStuck
  }

  datatype Move = Go(pc: nat, js: JState, gas: nat) | Stop(o: TOut)
  {
    /** The move costs gas, or finishes a re-entry, or goes to the next item. */
    predicate From(len: nat, pc0: nat, j: JState, g: nat) {
      match this
      case Go(pc, js, gas) =>
        gas <= g && pc <= len && (js.c ==> j.c) && (gas == g ==> pc == pc0 + 1 && (js.c ==> js.r == j.r))
      case Stop(o) => o.Within(g)
    }
  }

  /** What an ordinary item leads to: the next item, a jump through $s, or the end. */
  function AfterStep(code: seq<Js>, pc: nat, js0: JState, g0: nat, o: JOut): (m: Move)
    requires pc < |code| && o.From(js0, g0)
    ensures m.From(|code|, pc, js0, g0)
  {
    match o
    case JNormal(js, g) => Go(pc + 1, js, g)
    case JCont(t, js, g) =>
      if t.Named? then Stop(TStuck)
      else if g == 0 then Stop(TTimeout(js.w))
      else Go(FindCase(code, js.s), js, g - 1)
    case JRet(v, w, g) => Stop(TDone(v, w, g))
    case JTimeout(w) => Stop(TTimeout(w))
    case JBrk(t, js, g) => if t == Inner then Stop(TDone(0, js.w, g)) else Stop(TStuck)
    case JStuck => Stop(TStuck)
  }

  /** `$r` after a call or a re-entry. */
  function AfterCall(pc: nat, js: JState, g0: nat, o: TOut): (m: Move)
    requires o.Within(g0)
    ensures if m.Go? then m.pc == pc + 1 && m.gas <= g0 && m.js.c == js.c else m.o.Within(g0)
  {
    match o
    case TDone(v, w, g) => Go(pc + 1, js.(r := JInt(v), w := w), g)
    case TSusp(fr, w, g) => Go(pc + 1, js.(r := JObj(fr), w := w), g)
    case _ => Stop(o)
  }

  /** An item that is no part of the suspension protocol. */
  predicate Ordinary(i: Js) {
    !i.Case? && !i.BlockingCall? && !i.ResumeCheck? && !i.UnwindCheck?
  }

  /** One item of `s: while (true) { switch ($s) { ... } return; }`. */
  function Next(Q: JProg, O: Oracle, mode: Mode, f: Name, code: seq<Js>, pc: nat, js: JState, g: nat): (m: Move)
    requires pc < |code|
    ensures m.From(|code|, pc, js, g)
    decreases g, if js.c then 1 + ValSize(js.r) else 0, 0, |code| - pc, 0
  {
    match code[pc]
    case Case(_) => Go(pc + 1, js, g)
    case BlockingCall(h, args) =>
      if g == 0 then Stop(TTimeout(js.w))
      else AfterCall(pc, js, g - 1, Invoke(Q, O, mode, h, EvalAll(args, js.locals, js.w.globals), js.w, g - 1))
    case ResumeCheck =>
      if !js.c then Go(pc + 1, js, g)
      else if js.r.JInt? then Stop(TStuck)
      else AfterCall(pc, js.(c := false), g, Resume(Q, O, mode, js.r.frame, js.w, g))
    case UnwindCheck =>
      if js.r.JObj? then Stop(TSusp(FnFrame(f, js.s, js.locals, js.r), js.w, g)) else Go(pc + 1, js, g)
    case i => AfterStep(code, pc, js, g, JStep(Q, i, js, g))
  }

  /** The machine from item `pc` on. */
  function Run(Q: JProg, O: Oracle, mode: Mode, f: Name, code: seq<Js>, pc: nat, js: JState, g: nat): (o: TOut)
    requires pc <= |code|
    ensures o.Within(g)
    decreases g, if js.c then 1 + ValSize(js.r) else 0, 0, |code| - pc, 1
  {
    if pc == |code| then TDone(0, js.w, g)
    else
      var m := Next(Q, O, mode, f, code, pc, js, g);
      if m.Stop? then m.o else Run(Q, O, mode, f, code, m.pc, m.js, m.gas)
  }

  /** The goroutine's driver: as long as it gets a frame back, the goroutine sleeps, is woken and
      calls the frame's $blk. */
  function Drive(Q: JProg, O: Oracle, o: TOut): TOut
    decreases if o.TSusp? then 1 + o.gas else 0
  {
    if !o.TSusp? then o
    else if o.gas == 0 then TTimeout(o.w)
    else Drive(Q, O, Resume(Q, O, Unwinding, o.fr, Wake(O, o.w), o.gas - 1))
  }
}
