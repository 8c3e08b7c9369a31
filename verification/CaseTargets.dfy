/** Cases stand at the top of the switch only, and every jump through $s has its case. */
module CaseTargets {
  import opened GoSource
  import opened JsMachine
  import opened Emitter
  import opened Unflattened
  import opened SuspendResume
  import opened CaseNumbers

  /** Every value given to $s is in T; inside a statement (`nested`) there is no case and no call that parks. */
  predicate Tidy(items: seq<Js>, T: set<int>, nested: bool) {
    items == [] || (TidyItem(items[0], T, nested) && Tidy(items[1..], T, nested))
  }

  predicate TidyItem(i: Js, T: set<int>, nested: bool) {
    match i
    case SetS(n) => n in T
    case JIf(_, thn, els) => Tidy(thn, T, true) && Tidy(els, T, true)
    case JWhile(_, body) => Tidy(body, T, true)
    case JSwitch0(_, body) => Tidy(body, T, true)
    case TakeResult(_) => !nested
    case _ => Ordinary(i) || !nested
  }

  predicate CasesIn(items: seq<Js>, T: set<int>) {
    forall k | 0 <= k < |items| && items[k].Case? :: items[k].n in T
  }

  ghost predicate TargetsIn(env: Flows, T: set<int>) {
    && -1 in T
    && forall l | l in env :: (env[l].begin != 0 ==> env[l].begin in T) && (env[l].end != 0 ==> env[l].end in T)
  }

  lemma {:induction false} TidyConcat(a: seq<Js>, b: seq<Js>, T: set<int>, nested: bool)
    requires Tidy(a, T, nested) && Tidy(b, T, nested)
    ensures Tidy(a + b, T, nested)
  {
    if a == [] { assert a + b == b; }
    else {
      assert (a + b)[1..] == a[1..] + b;
      TidyConcat(a[1..], b, T, nested);
    }
  }

  lemma {:induction false} TidyLoose(a: seq<Js>, T: set<int>, nested: bool)
    requires Tidy(a, T, nested)
    ensures Tidy(a, T, false)
    ensures nested ==> NoCase(a)
    ensures forall k | 0 <= k < |a| :: TidyItem(a[k], T, nested)
  {
    if a != [] { TidyLoose(a[1..], T, nested); }
  }

  lemma TidyTo(a: seq<Js>, T: set<int>, nested: bool, nested': bool)
    requires Tidy(a, T, nested) && (nested' ==> nested)
    ensures Tidy(a, T, nested')
  {
    if !nested' { TidyLoose(a, T, nested); }
  }

  lemma CasesInParts(a: seq<Js>, b: seq<Js>, T: set<int>)
    requires CasesIn(a + b, T)
    ensures CasesIn(a, T) && CasesIn(b, T)
  {
    forall k | 0 <= k < |a| && a[k].Case? ensures a[k].n in T { assert (a + b)[k] == a[k]; }
    forall k | 0 <= k < |b| && b[k].Case? ensures b[k].n in T { assert (a + b)[|a| + k] == b[k]; }
  }

  lemma TidyOne(i: Js, T: set<int>, nested: bool)
    requires TidyItem(i, T, nested)
    ensures Tidy([i], T, nested)
  {
    assert [i][1..] == [];
    assert Tidy([], T, nested);
  }

  lemma TidyTwo(i: Js, j: Js, T: set<int>, nested: bool)
    requires TidyItem(i, T, nested) && TidyItem(j, T, nested)
    ensures Tidy([i, j], T, nested)
  {
    TidyOne(j, T, nested);
    assert [i, j][1..] == [j];
  }

  lemma TidyJump(l: Label, n: nat, T: set<int>, nested: bool)
    requires n in T
    ensures Tidy(JumpTo(l, n), T, nested)
  {
    TidyTwo(SetS(n), ContinueTo(if l.Some? then Machine else Inner), T, nested);
  }

  lemma TidyCall(f: Name, args: seq<Expr>, n: nat, x: Name, T: set<int>)
    requires n in T
    ensures Tidy(CallItems(f, args, n) + [TakeResult(x)], T, false)
  {
    TidyOne(TakeResult(x), T, false);
    TidyTwo(ResumeCheck, UnwindCheck, T, false);
    TidyTwo(SetS(n), Case(n), T, false);
    TidyOne(BlockingCall(f, args), T, false);
    TidyConcat([SetS(n), Case(n)], [ResumeCheck, UnwindCheck], T, false);
    TidyConcat([BlockingCall(f, args)], [SetS(n), Case(n)] + [ResumeCheck, UnwindCheck], T, false);
    assert CallItems(f, args, n) == [BlockingCall(f, args)] + ([SetS(n), Case(n)] + [ResumeCheck, UnwindCheck]);
    TidyConcat(CallItems(f, args, n), [TakeResult(x)], T, false);
  }

  lemma {:induction false} AtomTidy(s: Stmt, n: nat, T: set<int>)
    requires HasFlat(s) ==> CasesIn(EmitAtom(s, n).js, T)
    ensures IsAtom(s) ==> Tidy(EmitAtom(s, n).js, T, !HasFlat(s))
  {
    var js := EmitAtom(s, n).js;
    match s
    case Simple(b) => TidyOne(Do(b), T, true);
    case Call(x, f, args, blocking) =>
      if blocking {
        assert js[2] == Case(n);
        TidyCall(f, args, n, x, T);
      } else {
        TidyOne(PlainCall(x, f, args), T, true);
      }
    case ShortCircuit(x, isAnd, e, f, args, blocking) =>
      var skipped := Do(Assign(x, Num(if isAnd then 0 else 1)));
      TidyOne(skipped, T, true);
      if blocking {
        assert js[3] == Case(n + 1) && js[7] == Case(n);
        TidyJump(Some(x), n, T, true);
        TidyConcat([skipped], [SetS(n), ContinueTo(Machine)], T, true);
        assert [skipped, SetS(n), ContinueTo(Machine)] == [skipped] + [SetS(n), ContinueTo(Machine)];
        TidyOne(js[0], T, false);
        TidyCall(f, args, n + 1, x, T);
        TidyOne(Case(n), T, false);
        TidyConcat([js[0]], CallItems(f, args, n + 1) + [TakeResult(x)], T, false);
        TidyConcat([js[0]] + (CallItems(f, args, n + 1) + [TakeResult(x)]), [Case(n)], T, false);
        assert js == [js[0]] + (CallItems(f, args, n + 1) + [TakeResult(x)]) + [Case(n)];
      } else {
        TidyOne(PlainCall(x, f, args), T, true);
        TidyOne(js[0], T, true);
      }
    case _ =>
  }

  lemma {:induction false} PostTidy(P: Prog, post: Stmts, n: nat, T: set<int>)
    requires PostOk(P, post) && (HasFlatList(post) ==> CasesIn(EmitPost(post, n).js, T))
    ensures Tidy(EmitPost(post, n).js, T, !HasFlatList(post))
  {
    if post.Cons? {
      var c := EmitAtom(post.head, n);
      var d := EmitPost(post.tail, c.next);
      if HasFlatList(post) { CasesInParts(c.js, d.js, T); }
      AtomTidy(post.head, n, T);
      PostTidy(P, post.tail, c.next, T);
      TidyTo(c.js, T, !HasFlat(post.head), !HasFlatList(post));
      TidyTo(d.js, T, !HasFlatList(post.tail), !HasFlatList(post));
      TidyConcat(c.js, d.js, T, !HasFlatList(post));
    }
  }

  lemma {:induction false} StmtTidy(P: Prog, s: Stmt, lab: Label, cx: Scopes, env: Flows, n: nat, inFlat: bool,
                                    T: set<int>)
    requires Ok(P, s, lab, cx) && Agrees(P, cx, env) && TargetsIn(env, T)
    requires HasFlat(s) ==> CasesIn(EmitStmt(s, lab, env, n, inFlat).js, T)
    ensures Tidy(EmitStmt(s, lab, env, n, inFlat).js, T, !HasFlat(s))
    decreases s, 1
  {
    match s
    case Block(body) => ListTidy(P, body, cx, env, n, inFlat, T);
    case If(cs, flat) =>
      if flat { CasesTidy(P, cs, cx, env, n, inFlat, T); } else { NestedTidy(P, cs, cx, env, n, inFlat, T); }
    case TypeSwitch(cs, flat) => SwitchTidy(P, s, lab, cx, env, n, inFlat, T);
    case Switch(body, flat) => SwitchTidy(P, s, lab, cx, env, n, inFlat, T);
    case For(_, _, _, flat) =>
      if flat { FlatLoopTidy(P, s, lab, cx, env, n, inFlat, T); } else { WhileTidy(P, s, lab, cx, env, n, inFlat, T); }
    case Break(l) =>
      if Data(env, l).end == 0 {
        TidyOne(BreakTo(NamedOrInner(l)), T, true);
      } else {
        TidyJump(l, Data(env, l).end, T, true);
      }
    case Continue(l, flat) =>
      var d := Data(env, l);
      var c := EmitPost(d.post, n);
      var tail := if d.begin == 0 then [ContinueTo(NamedOrInner(l))] else JumpTo(l, d.begin);
      if flat { CasesInParts(c.js, tail, T); }
      PostTidy(P, d.post, n, T);
      TidyTo(c.js, T, !HasFlatList(d.post), !flat);
      if d.begin == 0 { TidyOne(ContinueTo(NamedOrInner(l)), T, !flat); } else { TidyJump(l, d.begin, T, !flat); }
      TidyConcat(c.js, tail, T, !flat);
    case Return(e) =>
      TidyOne(JReturn(e), T, true);
      TidyTwo(SetS(-1), JReturn(e), T, true);
    case Labeled(name, s') => StmtTidy(P, s', Some(name), cx, env, n, inFlat, T);
    case _ => AtomTidy(s, n, T);
  }

  lemma {:induction false} SwitchTidy(P: Prog, s: Stmt, lab: Label, cx: Scopes, env: Flows, n: nat, inFlat: bool,
                                      T: set<int>)
    requires s.Switch? || s.TypeSwitch?
    requires Ok(P, s, lab, cx) && Agrees(P, cx, env) && TargetsIn(env, T)
    requires HasFlat(s) ==> CasesIn(EmitStmt(s, lab, env, n, inFlat).js, T)
    ensures Tidy(EmitStmt(s, lab, env, n, inFlat).js, T, !HasFlat(s))
    decreases s, 0
  {
    if s.flat {
      FlatSwitchTidy(P, s, lab, cx, env, n, inFlat, T);
    } else {
      var env' := Push(env, lab, SwitchFlow(env, 0));
      var inner := if s.Switch? then EmitList(s.body, env', n, inFlat).js
          else EmitNested(s.clauses, env', n, inFlat).js;
      if s.Switch? { ListTidy(P, s.body, SwitchScope(cx, lab), env', n, inFlat, T); }
      else { NestedTidy(P, s.clauses, SwitchScope(cx, lab), env', n, inFlat, T); }
      TidyOne(JSwitch0(lab, inner), T, true);
    }
  }

  lemma {:induction false} FlatSwitchTidy(P: Prog, s: Stmt, lab: Label, cx: Scopes, env: Flows, n: nat, inFlat: bool,
                                          T: set<int>)
    requires (s.Switch? || s.TypeSwitch?) && s.flat
    requires Ok(P, s, lab, cx) && Agrees(P, cx, env) && TargetsIn(env, T)
    requires CasesIn(EmitStmt(s, lab, env, n, inFlat).js, T)
    ensures Tidy(EmitStmt(s, lab, env, n, inFlat).js, T, false)
    decreases s, -1
  {
    var end := if s.Switch? then n else EndCase(s.clauses, n);
    var env' := Push(env, lab, SwitchFlow(env, end));
    if s.Switch? {
      var c := EmitList(s.body, env', n + 1, inFlat);
      assert EmitStmt(s, lab, env, n, inFlat).js == c.js + [Case(n)];
      LastCaseIn(c.js, n, T);
      CasesInParts(c.js, [Case(n)], T);
      ListTidy(P, s.body, SwitchScope(cx, lab), env', n + 1, inFlat, T);
      TidyBeforeCase(c.js, n, T, !HasFlatList(s.body));
    } else {
      var c := EmitCases(s.clauses, env', n, inFlat);
      assert EmitStmt(s, lab, env, n, inFlat).js == c.js;
      LastCaseIn(c.js[..|c.js| - 1], end, T);
      CasesTidy(P, s.clauses, SwitchScope(cx, lab), env', n, inFlat, T);
    }
  }

  lemma LastCaseIn(js: seq<Js>, n: nat, T: set<int>)
    requires CasesIn(js + [Case(n)], T)
    ensures n in T
  {
    assert (js + [Case(n)])[|js|] == Case(n);
  }

  lemma TidyBeforeCase(js: seq<Js>, n: nat, T: set<int>, nested: bool)
    requires Tidy(js, T, nested) && n in T
    ensures Tidy(js + [Case(n)], T, false)
  {
    TidyTo(js, T, nested, false);
    TidyOne(Case(n), T, false);
    TidyConcat(js, [Case(n)], T, false);
  }

  lemma {:induction false} ListTidy(P: Prog, ss: Stmts, cx: Scopes, env: Flows, n: nat, inFlat: bool, T: set<int>)
    requires OkList(P, ss, cx) && Agrees(P, cx, env) && TargetsIn(env, T)
    requires HasFlatList(ss) ==> CasesIn(EmitList(ss, env, n, inFlat).js, T)
    ensures Tidy(EmitList(ss, env, n, inFlat).js, T, !HasFlatList(ss))
    decreases ss, 1
  {
    if ss.Cons? {
      var c := EmitStmt(ss.head, None, env, n, inFlat);
      var d := EmitList(ss.tail, env, c.next, inFlat);
      var nested := !HasFlatList(ss);
      if !nested { CasesInParts(c.js, d.js, T); }
      StmtTidy(P, ss.head, None, cx, env, n, inFlat, T);
      ListTidy(P, ss.tail, cx, env, c.next, inFlat, T);
      TidyTo(c.js, T, !HasFlat(ss.head), nested);
      TidyTo(d.js, T, !HasFlatList(ss.tail), nested);
      TidyConcat(c.js, d.js, T, nested);
    }
  }

  lemma {:induction false} NestedTidy(P: Prog, cs: Clauses, cx: Scopes, env: Flows, n: nat, inFlat: bool, T: set<int>)
    requires OkClauses(P, cs, cx) && Agrees(P, cx, env) && TargetsIn(env, T) && !HasFlatClauses(cs)
    ensures Tidy(EmitNested(cs, env, n, inFlat).js, T, true)
    decreases cs, 1
  {
    match cs
    case End =>
    case Default(body) => ListTidy(P, body, cx, env, n, inFlat, T);
    case Clause(c, body, rest) =>
      ListTidy(P, body, cx, env, n, inFlat, T);
      NestedTidy(P, rest, cx, env, EmitList(body, env, n, inFlat).next, inFlat, T);
      TidyOne(EmitNested(cs, env, n, inFlat).js[0], T, true);
  }

  lemma {:induction false} WhileTidy(P: Prog, s: Stmt, lab: Label, cx: Scopes, env: Flows, n: nat, inFlat: bool,
                                     T: set<int>)
    requires s.For? && Ok(P, s, lab, cx) && Agrees(P, cx, env) && TargetsIn(env, T) && !HasFlat(s)
    ensures Tidy(EmitWhile(s, lab, env, n, inFlat).js, T, true)
    decreases s, 0
  {
    var env' := Push(env, lab, Flow(s.post, 0, 0));
    var b := EmitList(s.body, env', n, inFlat);
    var p := if IsTerminated(s.body) then Code([], b.next) else EmitPost(s.post, b.next);
    ListTidy(P, s.body, LoopScope(cx, lab, s.post), env', n, inFlat, T);
    PostTidy(P, s.post, b.next, T);
    TidyConcat(b.js, p.js, T, true);
    var test := if s.cond.Some? then [JIf(Not(s.cond.value), [BreakTo(Inner)], [])] else [];
    if s.cond.Some? {
      TidyOne(BreakTo(Inner), T, true);
      TidyOne(test[0], T, true);
    }
    TidyConcat(test, b.js + p.js, T, true);
    TidyOne(EmitWhile(s, lab, env, n, inFlat).js[0], T, true);
  }

  lemma {:induction false} FlatLoopTidy(P: Prog, s: Stmt, lab: Label, cx: Scopes, env: Flows, n: nat, inFlat: bool,
                                        T: set<int>)
    requires s.For? && Ok(P, s, lab, cx) && Agrees(P, cx, env) && TargetsIn(env, T)
    requires CasesIn(EmitFlatLoop(s, lab, env, n, inFlat).js, T)
    ensures Tidy(EmitFlatLoop(s, lab, env, n, inFlat).js, T, false)
    decreases s, 0
  {
    var env' := Push(env, lab, Flow(s.post, n, n + 1));
    var b := EmitList(s.body, env', n + 2, inFlat);
    var p := if IsTerminated(s.body) then Code([], b.next) else EmitPost(s.post, b.next);
    var test := if s.cond.Some? then [JIf(Not(s.cond.value), JumpTo(None, n + 1), [])] else [];
    var back := if IsTerminated(s.body) then [] else JumpTo(None, n);
    var front := [Case(n)] + test + (b.js + p.js) + back;
    CasesInParts(front, [Case(n + 1)], T);
    CasesInParts([Case(n)] + test + (b.js + p.js), back, T);
    CasesInParts([Case(n)] + test, b.js + p.js, T);
    CasesInParts(b.js, p.js, T);
    CasesInParts([Case(n)], test, T);
    assert [Case(n)][0].Case? && [Case(n + 1)][0].Case?;
    ListTidy(P, s.body, LoopScope(cx, lab, s.post), env', n + 2, inFlat, T);
    TidyTo(b.js, T, !HasFlatList(s.body), false);
    if !IsTerminated(s.body) {
      PostTidy(P, s.post, b.next, T);
      TidyTo(p.js, T, !HasFlatList(s.post), false);
    }
    FlatLoopGlue(s.cond, b.js, p.js, back, n, T);
  }

  lemma FlatLoopGlue(cond: Option<Expr>, b: seq<Js>, p: seq<Js>, back: seq<Js>, n: nat, T: set<int>)
    requires Tidy(b, T, false) && Tidy(p, T, false) && n in T && n + 1 in T
    requires back == [] || back == JumpTo(None, n)
    ensures Tidy([Case(n)] + (if cond.Some? then [JIf(Not(cond.value), JumpTo(None, n + 1), [])] else []) + (b + p)
                 + back + [Case(n + 1)], T, false)
  {
    var test := if cond.Some? then [JIf(Not(cond.value), JumpTo(None, n + 1), [])] else [];
    TidyJump(None, n + 1, T, true);
    TidyJump(None, n, T, false);
    if cond.Some? { TidyOne(test[0], T, false); }
    TidyOne(Case(n), T, false);
    TidyOne(Case(n + 1), T, false);
    TidyConcat(b, p, T, false);
    TidyConcat([Case(n)], test, T, false);
    TidyConcat([Case(n)] + test, b + p, T, false);
    TidyConcat([Case(n)] + test + (b + p), back, T, false);
    TidyConcat([Case(n)] + test + (b + p) + back, [Case(n + 1)], T, false);
  }

  lemma {:induction false} HeadsTidy(cs: Clauses, offset: nat, T: set<int>)
    requires forall k | offset <= k < offset + CountClauses(cs) :: k in T
    ensures Tidy(Heads(cs, offset), T, false)
  {
    if cs.Clause? {
      HeadsTidy(cs.rest, offset + 1, T);
      TidyJump(None, offset, T, true);
      TidyOne(JIf(cs.cond, JumpTo(None, offset), []), T, false);
      TidyConcat([JIf(cs.cond, JumpTo(None, offset), [])], Heads(cs.rest, offset + 1), T, false);
    }
  }

  lemma {:induction false} BodiesTidy(P: Prog, cs: Clauses, offset: nat, end: nat, cx: Scopes, env: Flows, n: nat,
                                      inFlat: bool, T: set<int>)
    requires OkClauses(P, cs, cx) && Agrees(P, cx, env) && TargetsIn(env, T) && end in T
    requires CasesIn(EmitBodies(cs, offset, end, env, n, inFlat).js, T)
    ensures Tidy(EmitBodies(cs, offset, end, env, n, inFlat).js, T, false)
    ensures forall k | offset <= k < EndCase(cs, offset) :: k in T
    decreases cs, 0
  {
    match cs
    case End =>
    case Default(body) =>
      var b := EmitList(body, env, n, inFlat);
      CasesInParts([Case(offset)], b.js, T);
      assert [Case(offset)][0].Case?;
      ListTidy(P, body, cx, env, n, inFlat, T);
      TidyTo(b.js, T, !HasFlatList(body), false);
      TidyOne(Case(offset), T, false);
      TidyConcat([Case(offset)], b.js, T, false);
    case Clause(_, body, rest) =>
      var b := EmitList(body, env, n, inFlat);
      var r := EmitBodies(rest, offset + 1, end, env, b.next, inFlat);
      var tail := if !rest.End? && !EndsWithReturn(body) then JumpTo(None, end) else [];
      CasesInParts([Case(offset)] + (b.js + tail), r.js, T);
      CasesInParts([Case(offset)], b.js + tail, T);
      CasesInParts(b.js, tail, T);
      assert [Case(offset)][0].Case?;
      ListTidy(P, body, cx, env, n, inFlat, T);
      BodiesTidy(P, rest, offset + 1, end, cx, env, b.next, inFlat, T);
      TidyTo(b.js, T, !HasFlatList(body), false);
      TidyOne(Case(offset), T, false);
      TidyJump(None, end, T, false);
      TidyConcat(b.js, tail, T, false);
      TidyConcat([Case(offset)], b.js + tail, T, false);
      TidyConcat([Case(offset)] + (b.js + tail), r.js, T, false);
  }

  lemma {:induction false} CasesTidy(P: Prog, cs: Clauses, cx: Scopes, env: Flows, n: nat, inFlat: bool, T: set<int>)
    requires OkClauses(P, cs, cx) && Agrees(P, cx, env) && TargetsIn(env, T)
    requires CasesIn(EmitCases(cs, env, n, inFlat).js, T)
    ensures Tidy(EmitCases(cs, env, n, inFlat).js, T, false)
    decreases cs, 1
  {
    var end := EndCase(cs, n);
    var b := EmitBodies(cs, n, end, env, end + 1, inFlat);
    var jump := JumpTo(None, n + CountClauses(cs));
    CasesInParts(Heads(cs, n) + jump + b.js, [Case(end)], T);
    CasesInParts(Heads(cs, n) + jump, b.js, T);
    assert [Case(end)][0].Case?;
    BodiesTidy(P, cs, n, end, cx, env, end + 1, inFlat, T);
    HeadsTidy(cs, n, T);
    TidyJump(None, n + CountClauses(cs), T, false);
    TidyOne(Case(end), T, false);
    TidyConcat(Heads(cs, n), jump, T, false);
    TidyConcat(Heads(cs, n) + jump, b.js, T, false);
    TidyConcat(Heads(cs, n) + jump + b.js, [Case(end)], T, false);
  }

  function CaseSet(js: seq<Js>): set<int> {
    set k | 0 <= k < |js| && js[k].Case? :: js[k].n
  }

  /** In a compiled machine every value that $s is given, other than -1, is the number of exactly one
      `case`, which stands at the top of the switch. */
  lemma EveryJumpHasItsCase(P: Prog, fn: Func)
    requires OkList(P, fn.body, TOP_SCOPE) && HasFlatList(fn.body)
    ensures var code := Compile(fn).code;
            && Tidy(code, CaseSet(code) + {-1}, false)
            && Distinct(code)
  {
    var b := EmitList(fn.body, TOP, 1, true);
    var tail := if EndsWithReturn(fn.body) then [] else [SetS(-1), JReturn(Num(0))];
    var code := Compile(fn).code;
    var T := CaseSet(code) + {-1};
    CompiledResumable(fn);
    assert CasesIn(code, T) by {
      forall k | 0 <= k < |code| && code[k].Case? ensures code[k].n in T { assert code[k].n in CaseSet(code); }
    }
    CasesInParts([Case(0)] + b.js, tail, T);
    CasesInParts([Case(0)], b.js, T);
    ListTidy(P, fn.body, TOP_SCOPE, TOP, 1, true, T);
    TidyOne(Case(0), T, false);
    TidyTwo(SetS(-1), JReturn(Num(0)), T, false);
    TidyConcat([Case(0)], b.js, T, false);
    assert tail == [] ==> Tidy(tail, T, false);
    TidyConcat([Case(0)] + b.js, tail, T, false);
  }
}
