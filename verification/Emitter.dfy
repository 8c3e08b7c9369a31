/** What compiler/statements.go emits, as a function of the statement, the flow data in force
    and the case counter.  The class that emits it step by step is in FuncContext.dfy. */
module Emitter {
  import opened GoSource
  import opened JsMachine

  // ----- the analyses that the translation consults -----

  /** Some node of the statement is flattened. */
  predicate HasFlat(s: Stmt) {
    match s
    case Call(_, _, _, blocking) => blocking
    case ShortCircuit(_, _, _, _, _, blocking) => blocking
    case Block(body) => HasFlatList(body)
    case If(cs, flat) => flat || HasFlatClauses(cs)
    case TypeSwitch(cs, flat) => flat || HasFlatClauses(cs)
    case Switch(body, flat) => flat || HasFlatList(body)
    case For(_, post, body, flat) => flat || HasFlatList(post) || HasFlatList(body)
    case Continue(_, flat) => flat
    case Labeled(_, s') => HasFlat(s')
    case _ => false
  }

  predicate HasFlatList(ss: Stmts) {
    ss.Cons? && (HasFlat(ss.head) || HasFlatList(ss.tail))
  }

  predicate HasFlatClauses(cs: Clauses) {
    match cs
    case End => false
    case Default(body) => HasFlatList(body)
    case Clause(_, body, rest) => HasFlatList(body) || HasFlatClauses(rest)
  }

  /** An unlabelled break that leaves the statement (analysis.HasBreak). */
  predicate HasBreak(s: Stmt) {
    match s
    case Break(l) => l == None
    case Block(body) => HasBreakList(body)
    case If(cs, _) => HasBreakClauses(cs)
    case Labeled(_, s') => HasBreak(s')
    case _ => false
  }

  predicate HasBreakList(ss: Stmts) {
    ss.Cons? && (HasBreak(ss.head) || HasBreakList(ss.tail))
  }

  predicate HasBreakClauses(cs: Clauses) {
    match cs
    case End => false
    case Default(body) => HasBreakList(body)
    case Clause(_, body, rest) => HasBreakList(body) || HasBreakClauses(rest)
  }

  /** astutil.EndsWithReturn */
  predicate EndsWithReturn(ss: Stmts) {
    ss.Cons? && (if ss.tail.Nil? then IsReturn(ss.head) else EndsWithReturn(ss.tail))
  }

  predicate IsReturn(s: Stmt) {
    match s
    case Return(_) => true
    case Labeled(_, s') => IsReturn(s')
    case Block(body) => EndsWithReturn(body)
    case _ => false
  }

  /** The last statement of a loop body is a return or a branch. */
  predicate IsTerminated(ss: Stmts) {
    ss.Cons? && (if ss.tail.Nil? then ss.head.Return? || ss.head.Break? || ss.head.Continue? else IsTerminated(ss.tail))
  }

  // ----- flow data -----

  /** Where `break` and `continue` lead; 0 stands for a statement that is not flattened. */
  datatype Flow = Flow(post: Stmts, begin: nat, end: nat)
  type Flows = map<Label, Flow>

  const NO_FLOW := Flow(Nil, 0, 0)

  function Data(env: Flows, l: Label): Flow {
    if l in env then env[l] else NO_FLOW
  }

  function Push(env: Flows, lab: Label, d: Flow): Flows {
    env[None := d][lab := d]
  }

  /** The flow data of a statement that can be left by `break` but is no loop. */
  function SwitchFlow(env: Flows, end: nat): Flow {
    Flow(Data(env, None).post, Data(env, None).begin, end)
  }

  // ----- emission -----

  datatype Code = Code(js: seq<Js>, next: nat)

  function CallItems(f: Name, args: seq<Expr>, n: nat): seq<Js> {
    [BlockingCall(f, args), SetS(n), Case(n), ResumeCheck, UnwindCheck]
  }

  /** Statements without statements inside: the only ones a loop's post may hold. */
  predicate IsAtom(s: Stmt) {
    s.Simple? || s.Call? || s.ShortCircuit?
  }

  function EmitAtom(s: Stmt, n: nat): Code {
    match s
    case Simple(b) => Code([Do(b)], n)
    case Call(x, f, args, blocking) =>
      if blocking then Code(CallItems(f, args, n) + [TakeResult(x)], n + 1) else Code([PlainCall(x, f, args)], n)
    case ShortCircuit(x, isAnd, e, f, args, blocking) =>
      var skipped := Do(Assign(x, Num(if isAnd then 0 else 1)));
      if blocking then
        Code([JIf(if isAnd then Not(e) else e, [skipped, SetS(n), ContinueTo(Machine)], [])]
             + CallItems(f, args, n + 1) + [TakeResult(x), Case(n)], n + 2)
      else
        Code([JIf(e, if isAnd then [PlainCall(x, f, args)] else [skipped],
                     if isAnd then [skipped] else [PlainCall(x, f, args)])], n)
    case _ => Code([], n)
  }

  /** The closure flowData.postStmt. */
  function EmitPost(post: Stmts, n: nat): Code {
    match post
    case Nil => Code([], n)
    case Cons(s, rest) =>
      var c := EmitAtom(s, n);
      var d := EmitPost(rest, c.next);
      Code(c.js + d.js, d.next)
  }

  function JumpTo(l: Label, n: nat): seq<Js> {
    [SetS(n), ContinueTo(if l.Some? then Machine else Inner)]
  }

  function NamedOrInner(l: Label): Target {
    if l.Some? then Named(l.value) else Inner
  }

  function EmitStmt(s: Stmt, lab: Label, env: Flows, n: nat, inFlat: bool): Code
    decreases s, 1
  {
    match s
    case Block(body) => EmitList(body, env, n, inFlat)
    case If(cs, flat) => if flat then EmitCases(cs, env, n, inFlat) else EmitNested(cs, env, n, inFlat)
    case TypeSwitch(cs, flat) =>
      if flat then EmitCases(cs, Push(env, lab, SwitchFlow(env, EndCase(cs, n))), n, inFlat)
      else
        var c := EmitNested(cs, Push(env, lab, SwitchFlow(env, 0)), n, inFlat);
        if lab.Some? || HasBreakClauses(cs) then Code([JSwitch0(lab, c.js)], c.next) else c
    case Switch(body, flat) =>
      if flat then
        var c := EmitList(body, Push(env, lab, SwitchFlow(env, n)), n + 1, inFlat);
        Code(c.js + [Case(n)], c.next)
      else
        var c := EmitList(body, Push(env, lab, SwitchFlow(env, 0)), n, inFlat);
        if lab.Some? || HasBreakList(body) then Code([JSwitch0(lab, c.js)], c.next) else c
    case For(_, _, _, flat) => if flat then EmitFlatLoop(s, lab, env, n, inFlat) else EmitWhile(s, lab, env, n, inFlat)
    case Break(l) =>
      if Data(env, l).end == 0 then Code([BreakTo(NamedOrInner(l))], n) else Code(JumpTo(l, Data(env, l).end), n)
    case Continue(l, _) =>
      var c := EmitPost(Data(env, l).post, n);
      Code(c.js + (if Data(env, l).begin == 0 then [ContinueTo(NamedOrInner(l))] else JumpTo(l, Data(env, l).begin)),
           c.next)
    case Return(e) => Code(if inFlat then [SetS(-1), JReturn(e)] else [JReturn(e)], n)
    case Labeled(name, s') => EmitStmt(s', Some(name), env, n, inFlat)
    case _ => EmitAtom(s, n)
  }

  function EmitList(ss: Stmts, env: Flows, n: nat, inFlat: bool): Code
    decreases ss, 1
  {
    match ss
    case Nil => Code([], n)
    case Cons(s, rest) =>
      var c := EmitStmt(s, None, env, n, inFlat);
      var d := EmitList(rest, env, c.next, inFlat);
      Code(c.js + d.js, d.next)
  }

  // An if chain that is not flattened.
  function EmitNested(cs: Clauses, env: Flows, n: nat, inFlat: bool): Code
    decreases cs, 1
  {
    match cs
    case End => Code([], n)
    case Default(body) => EmitList(body, env, n, inFlat)
    case Clause(c, body, rest) =>
      var b := EmitList(body, env, n, inFlat);
      var r := EmitNested(rest, env, b.next, inFlat);
      Code([JIf(c, b.js, r.js)], r.next)
  }

  // A flattened chain: one case per clause, one for the default clause, one for the end.
  function CountClauses(cs: Clauses): nat {
    if cs.Clause? then 1 + CountClauses(cs.rest) else 0
  }

  predicate HasDefault(cs: Clauses) {
    cs.Default? || (cs.Clause? && HasDefault(cs.rest))
  }

  function EndCase(cs: Clauses, n: nat): nat {
    n + CountClauses(cs) + if HasDefault(cs) then 1 else 0
  }

  function Heads(cs: Clauses, offset: nat): seq<Js> {
    if cs.Clause? then [JIf(cs.cond, JumpTo(None, offset), [])] + Heads(cs.rest, offset + 1) else []
  }

  function EmitBodies(cs: Clauses, offset: nat, end: nat, env: Flows, n: nat, inFlat: bool): Code
    decreases cs, 0
  {
    match cs
    case End => Code([], n)
    case Default(body) =>
      var b := EmitList(body, env, n, inFlat);
      Code([Case(offset)] + b.js, b.next)
    case Clause(_, body, rest) =>
      var b := EmitList(body, env, n, inFlat);
      var r := EmitBodies(rest, offset + 1, end, env, b.next, inFlat);
      Code([Case(offset)] + (b.js + if !rest.End? && !EndsWithReturn(body) then JumpTo(None, end) else []) + r.js,
           r.next)
  }

  function EmitCases(cs: Clauses, env: Flows, n: nat, inFlat: bool): Code
    decreases cs, 1
  {
    var end := EndCase(cs, n);
    var b := EmitBodies(cs, n, end, env, end + 1, inFlat);
    Code(Heads(cs, n) + JumpTo(None, n + CountClauses(cs)) + b.js + [Case(end)], b.next)
  }

  // Loops.
  function EmitWhile(s: Stmt, lab: Label, env: Flows, n: nat, inFlat: bool): Code
    requires s.For?
    decreases s, 0
  {
    var b := EmitList(s.body, Push(env, lab, Flow(s.post, 0, 0)), n, inFlat);
    var p := if IsTerminated(s.body) then Code([], b.next) else EmitPost(s.post, b.next);
    var test := if s.cond.Some? then [JIf(Not(s.cond.value), [BreakTo(Inner)], [])] else [];
    Code([JWhile(lab, test + (b.js + p.js))], p.next)
  }

  function EmitFlatLoop(s: Stmt, lab: Label, env: Flows, n: nat, inFlat: bool): Code
    requires s.For?
    decreases s, 0
  {
    var b := EmitList(s.body, Push(env, lab, Flow(s.post, n, n + 1)), n + 2, inFlat);
    var p := if IsTerminated(s.body) then Code([], b.next) else EmitPost(s.post, b.next);
    var test := if s.cond.Some? then [JIf(Not(s.cond.value), JumpTo(None, n + 1), [])] else [];
    var back := if IsTerminated(s.body) then [] else JumpTo(None, n);
    Code([Case(n)] + test + (b.js + p.js) + back + [Case(n + 1)], p.next)
  }

  // ----- functions -----

  const TOP: Flows := map[None := NO_FLOW]

  /** translateFunctionBody: a function with flattened nodes becomes a machine that ends in a return. */
  function Compile(fn: Func): JFunc {
    if HasFlatList(fn.body) then
      var tail := if EndsWithReturn(fn.body) then [] else [SetS(-1), JReturn(Num(0))];
      Flat(fn.params, [Case(0)] + EmitList(fn.body, TOP, 1, true).js + tail)
    else Plain(fn.params, EmitList(fn.body, TOP, 1, false).js)
  }

  function CompileProg(P: Prog): JProg {
    map f | f in P :: Compile(P[f])
  }

  // ----- what a type-checked and analysed program satisfies -----

  /** What is known of an enclosing statement: whether `continue` may name it and whether its
      post statement holds a flattened node. */
  datatype Scope = Scope(isLoop: bool, postFlat: bool, canBreak: bool)
  type Scopes = map<Label, Scope>

  const TOP_SCOPE: Scopes := map[None := Scope(false, false, false)]

  predicate AtomOk(P: Prog, s: Stmt) {
    match s
    case Call(_, f, _, blocking) => blocking || (f in P && !HasFlatList(P[f].body))
    case ShortCircuit(_, _, _, f, _, blocking) => blocking || (f in P && !HasFlatList(P[f].body))
    case _ => s.Simple?
  }

  predicate PostOk(P: Prog, post: Stmts) {
    post.Cons? ==> AtomOk(P, post.head) && PostOk(P, post.tail)
  }

  function PushScope(cx: Scopes, lab: Label, d: Scope, named: Scope): Scopes {
    cx[lab := named][None := d]
  }

  /** A call that may block is marked; flattening is closed under ancestors; a `continue` whose loop
      has a blocking post is marked; jumps name an enclosing statement; labels are not reused inside. */
  predicate Ok(P: Prog, s: Stmt, lab: Label, cx: Scopes)
    decreases s, 1
  {
    match s
    case Block(body) => OkList(P, body, cx)
    case If(cs, flat) => (HasFlatClauses(cs) ==> flat) && OkClauses(P, cs, cx)
    case TypeSwitch(cs, flat) =>
      (HasFlatClauses(cs) ==> flat) && !cs.End? && Fresh(lab, cx) && OkClauses(P, cs, SwitchScope(cx, lab))
    case Switch(body, flat) =>
      (HasFlatList(body) ==> flat) && Fresh(lab, cx) && OkList(P, body, SwitchScope(cx, lab))
    case For(_, post, body, flat) =>
      && (HasFlatList(post) || HasFlatList(body) ==> flat)
      && PostOk(P, post) && Fresh(lab, cx)
      && OkList(P, body, LoopScope(cx, lab, post))
    case Break(l) => l in cx && cx[l].canBreak
    case Continue(l, flat) => l in cx && cx[l].isLoop && (cx[l].postFlat ==> flat)
    case Return(_) => true
    case Labeled(name, s') => Ok(P, s', Some(name), cx)
    case _ => AtomOk(P, s)
  }

  predicate Fresh(lab: Label, cx: Scopes) {
    lab.Some? ==> lab !in cx
  }

  function SwitchScope(cx: Scopes, lab: Label): Scopes {
    var outer := if None in cx then cx[None] else Scope(false, false, false);
    PushScope(cx, lab, outer.(canBreak := true), Scope(false, false, true))
  }

  function LoopScope(cx: Scopes, lab: Label, post: Stmts): Scopes {
    var d := Scope(true, HasFlatList(post), true);
    PushScope(cx, lab, d, d)
  }

  predicate OkList(P: Prog, ss: Stmts, cx: Scopes)
    decreases ss, 1
  {
    ss.Cons? ==> Ok(P, ss.head, None, cx) && OkList(P, ss.tail, cx)
  }

  predicate OkClauses(P: Prog, cs: Clauses, cx: Scopes)
    decreases cs, 1
  {
    match cs
    case End => true
    case Default(body) => OkList(P, body, cx)
    case Clause(_, body, rest) => OkList(P, body, cx) && OkClauses(P, rest, cx)
  }

  ghost predicate OkProg(P: Prog) {
    forall f | f in P :: OkList(P, P[f].body, TOP_SCOPE)
  }
}
