/** The Go side: the statements that compiler/statements.go translates, after
    its own simplification passes, and what they mean.

    Conditions are pure.  A call to a function outside the program stands for a
    channel primitive of the runtime ($send, $recv, $select): it may park the
    goroutine.  Execution is given by a big-step interpreter with gas; calls and
    loop back-edges cost one unit each. */
module GoSource {

  datatype Option<+T> = None | Some(value: T)

  type Name = string
  type Label = Option<Name>

  // ----- expressions and states -----

  datatype BinOp = Add | Sub | Mul | Less | Equal

  datatype Expr =
    | Num(n: int)
    | Local(x: Name)
    | Global(x: Name)
    | Bin(op: BinOp, a: Expr, b: Expr)
    | Not(e: Expr)

  type Vars = map<Name, int>

  datatype Event = Printed(n: int) | Started(op: Name, args: seq<int>)

  /** What a goroutine shares with the others, and how many channel primitives it has started. */
  datatype World = World(trace: seq<Event>, globals: Vars, tick: nat)

  /** How the n-th channel primitive ends: whether it parks the goroutine, the value it
      delivers, and what the other goroutines did to the shared state while it was parked. */
  datatype Answer = Answer(parks: bool, value: int, others: seq<Event>, globals: Vars)
  type Oracle = nat -> Answer

  datatype State = State(locals: Vars, w: World)

  function Lookup(m: Vars, x: Name): int {
    if x in m then m[x] else 0
  }

  function EvalOp(op: BinOp, a: int, b: int): int {
    match op
    case Add => a + b
    case Sub => a - b
    case Mul => a * b
    case Less => if a < b then 1 else 0
    case Equal => if a == b then 1 else 0
  }

  function Eval(e: Expr, locals: Vars, globals: Vars): int {
    match e
    case Num(n) => n
    case Local(x) => Lookup(locals, x)
    case Global(x) => Lookup(globals, x)
    case Bin(op, a, b) => EvalOp(op, Eval(a, locals, globals), Eval(b, locals, globals))
    case Not(e) => if Eval(e, locals, globals) == 0 then 1 else 0
  }

  predicate Holds(e: Expr, locals: Vars, w: World) {
    Eval(e, locals, w.globals) != 0
  }

  function EvalAll(es: seq<Expr>, locals: Vars, globals: Vars): seq<int> {
    seq(|es|, i requires 0 <= i < |es| => Eval(es[i], locals, globals))
  }

  function Bind(params: seq<Name>, args: seq<int>): Vars {
    map i | 0 <= i < |params| && i < |args| && (forall j :: i < j < |params| ==> params[j] != params[i]) ::
        params[i] := args[i]
  }

  // ----- channel primitives -----

  function StartPrim(w: World, f: Name, args: seq<int>): World {
    World(w.trace + [Started(f, args)], w.globals, w.tick + 1)
  }

  /** The world a parked goroutine wakes up in. */
  function Wake(O: Oracle, w: World): World {
    if w.tick == 0 then w else
    World(w.trace + O(w.tick - 1).others, O(w.tick - 1).globals, w.tick)
  }

  // ----- statements -----

  datatype Basic = Assign(x: Name, e: Expr) | Store(x: Name, e: Expr) | Print(e: Expr)

  /** `flat` is the node's entry in FuncInfo.Flattened, `blocking` a call's entry in FuncInfo.Blocking. */
  datatype Stmt =
    | Simple(b: Basic)
    | Call(x: Name, f: Name, args: seq<Expr>, blocking: bool)
    | ShortCircuit(x: Name, isAnd: bool, e: Expr, f: Name, args: seq<Expr>, blocking: bool)
    | Block(body: Stmts)
    | If(clauses: Clauses, flat: bool)
    | TypeSwitch(clauses: Clauses, flat: bool)
    | Switch(body: Stmts, flat: bool)
    | For(cond: Option<Expr>, post: Stmts, body: Stmts, flat: bool)
    | Break(l: Label)
    | Continue(l: Label, flat: bool)
    | Return(e: Expr)
    | Labeled(name: Name, s: Stmt)
  datatype Stmts = Nil | Cons(head: Stmt, tail: Stmts)
  datatype Clauses = End | Default(body: Stmts) | Clause(cond: Expr, body: Stmts, rest: Clauses)

  datatype Func = Func(params: seq<Name>, body: Stmts)
  type Prog = map<Name, Func>

  // ----- meaning -----

  datatype Outcome =
    | Normal(st: State, gas: nat)
    | Brk(l: Label, st: State, gas: nat)
    | Cont(l: Label, st: State, gas: nat)
    | Ret(v: int, w: World, gas: nat)
    | Timeout(w: World)
  {
    predicate Within(g: nat) {
      Timeout? || gas <= g
    }
  }

  datatype FnOutcome = Done(v: int, w: World, gas: nat) | OutOfGas(w: World)
  {
    predicate Within(g: nat) {
      Done? ==> gas <= g
    }
  }

  function Apply(b: Basic, locals: Vars, w: World): (Vars, World) {
    match b
    case Assign(x, e) => (locals[x := Eval(e, locals, w.globals)], w)
    case Store(x, e) => (locals, w.(globals := w.globals[x := Eval(e, locals, w.globals)]))
    case Print(e) => (locals, w.(trace := w.trace + [Printed(Eval(e, locals, w.globals))]))
  }

  /** A channel primitive that blocks in place: parking costs one unit and the goroutine goes on
      in the world it is woken in. */
  function PrimInPlace(O: Oracle, f: Name, args: seq<int>, w: World, g: nat): (o: FnOutcome)
    ensures o.Within(g)
  {
    var w1 := StartPrim(w, f, args);
    var a := O(w.tick);
    if !a.parks then Done(a.value, w1, g)
    else if g == 0 then OutOfGas(w1)
    else Done(a.value, Wake(O, w1), g - 1)
  }

  function CallFn(P: Prog, O: Oracle, f: Name, args: seq<int>, w: World, g: nat): (o: FnOutcome)
    ensures o.Within(g)
    decreases g, 0
  {
    if g == 0 then OutOfGas(w)
    else if f in P then FnResult(ExecList(P, O, P[f].body, State(Bind(P[f].params, args), w), g - 1))
    else PrimInPlace(O, f, args, w, g - 1)
  }

  /** Running off the end returns the zero value. */
  function FnResult(o: Outcome): FnOutcome {
    match o
    case Ret(v, w, g) => Done(v, w, g)
    case Timeout(w) => OutOfGas(w)
    case _ => Done(0, o.st.w, o.gas)
  }

  function AssignResult(st: State, x: Name, o: FnOutcome): Outcome {
    match o
    case Done(v, w, g) => Normal(State(st.locals[x := v], w), g)
    case OutOfGas(w) => Timeout(w)
  }

  function CatchBreak(lab: Label, o: Outcome): Outcome {
    if o.Brk? && (o.l == None || o.l == lab) then Normal(o.st, o.gas) else o
  }

  function ExecStmt(P: Prog, O: Oracle, s: Stmt, lab: Label, st: State, g: nat): (o: Outcome)
    ensures o.Within(g)
    decreases g, 1, s, 1
  {
    match s
    case Simple(b) =>
      var (locals, w) := Apply(b, st.locals, st.w);
      Normal(State(locals, w), g)
    case Call(x, f, args, _) =>
      AssignResult(st, x, CallFn(P, O, f, EvalAll(args, st.locals, st.w.globals), st.w, g))
    case ShortCircuit(x, isAnd, e, f, args, _) =>
      if Holds(e, st.locals, st.w) == isAnd then
        AssignResult(st, x, CallFn(P, O, f, EvalAll(args, st.locals, st.w.globals), st.w, g))
      else
        Normal(State(st.locals[x := if isAnd then 0 else 1], st.w), g)
    case Block(body) => ExecList(P, O, body, st, g)
    case If(clauses, _) => ExecClauses(P, O, clauses, st, g)
    case TypeSwitch(clauses, _) => CatchBreak(lab, ExecClauses(P, O, clauses, st, g))
    case Switch(body, _) => CatchBreak(lab, ExecList(P, O, body, st, g))
    case For(_, _, _, _) => ExecLoop(P, O, s, lab, st, g)
    case Break(l) => Brk(l, st, g)
    case Continue(l, _) => Cont(l, st, g)
    case Return(e) => Ret(Eval(e, st.locals, st.w.globals), st.w, g)
    case Labeled(name, s') => ExecStmt(P, O, s', Some(name), st, g)
  }

  function ExecList(P: Prog, O: Oracle, ss: Stmts, st: State, g: nat): (o: Outcome)
    ensures o.Within(g)
    decreases g, 1, ss, 1
  {
    match ss
    case Nil => Normal(st, g)
    case Cons(s, rest) =>
      var o := ExecStmt(P, O, s, None, st, g);
      if o.Normal? then ExecList(P, O, rest, o.st, o.gas) else o
  }

  function ExecClauses(P: Prog, O: Oracle, cs: Clauses, st: State, g: nat): (o: Outcome)
    ensures o.Within(g)
    decreases g, 1, cs, 1
  {
    match cs
    case End => Normal(st, g)
    case Default(body) => ExecList(P, O, body, st, g)
    case Clause(c, body, rest) =>
      if Holds(c, st.locals, st.w) then ExecList(P, O, body, st, g)
      else ExecClauses(P, O, rest, st, g)
  }

  /** One turn of a loop: the test, the body, the post statement, the back-edge. */
  function ExecLoop(P: Prog, O: Oracle, s: Stmt, lab: Label, st: State, g: nat): (o: Outcome)
    requires s.For?
    ensures o.Within(g)
    decreases g, 1, s, 0
  {
    if s.cond.Some? && !Holds(s.cond.value, st.locals, st.w) then Normal(st, g)
    else
      var o := ExecList(P, O, s.body, st, g);
      if o.Normal? || (o.Cont? && (o.l == None || o.l == lab)) then
        var p := ExecList(P, O, s.post, o.st, o.gas);
        if !p.Normal? then p
        else if p.gas == 0 then Timeout(p.st.w)
        else ExecLoop(P, O, s, lab, p.st, p.gas - 1)
      else CatchBreak(lab, o)
  }
}
