/** The translation as compiler/statements.go performs it: one context that appends to its output,
    advances its case counter and pushes and restores flow data. */
module Translator {
  import opened GoSource
  import opened JsMachine
  import opened Emitter

  /** What the grammar and the type checker grant: no statement reuses the label of an enclosing one,
      and the post statement of a loop is a simple statement. */
  predicate LabelsFresh(s: Stmt, lab: Label, keys: set<Label>)
    decreases s, 1
  {
    match s
    case Block(body) => ListFresh(body, keys)
    case If(cs, _) => ClausesFresh(cs, keys)
    case TypeSwitch(cs, _) => NewLabel(lab, keys) && ClausesFresh(cs, keys + {None, lab})
    case Switch(body, _) => NewLabel(lab, keys) && ListFresh(body, keys + {None, lab})
    case For(_, post, body, _) => Atoms(post) && NewLabel(lab, keys) && ListFresh(body, keys + {None, lab})
    case Labeled(name, s') => LabelsFresh(s', Some(name), keys)
    case _ => true
  }

  predicate Atoms(post: Stmts) {
    post.Cons? ==> IsAtom(post.head) && Atoms(post.tail)
  }

  predicate NewLabel(lab: Label, keys: set<Label>) {
    lab.Some? ==> lab !in keys
  }

  predicate ListFresh(ss: Stmts, keys: set<Label>)
    decreases ss, 1
  {
    ss.Cons? ==> LabelsFresh(ss.head, None, keys) && ListFresh(ss.tail, keys)
  }

  predicate ClausesFresh(cs: Clauses, keys: set<Label>)
    decreases cs, 1
  {
    match cs
    case End => true
    case Default(body) => ListFresh(body, keys)
    case Clause(_, body, rest) => ListFresh(body, keys) && ClausesFresh(rest, keys)
  }

  class FuncContext {
    var output: seq<Js>
    var caseCounter: nat
    var flowDatas: Flows
    const inFlat: bool    // len(fc.Flattened) != 0

    constructor (inFlat: bool)
      ensures output == [] && caseCounter == 1 && flowDatas == TOP && this.inFlat == inFlat
    {
      output, caseCounter, flowDatas := [], 1, TOP;
      this.inFlat := inFlat;
    }

    predicate Ready()
      reads this
    {
      None in flowDatas && forall l | l in flowDatas :: Atoms(flowDatas[l].post)
    }

    /** The new output is the old one followed by `c`; the flow data is as before. */
    twostate predicate Emitted(c: Code)
      reads this
    {
      output == old(output) + c.js && caseCounter == c.next && flowDatas == old(flowDatas)
    }

    method Print(js: seq<Js>)
      modifies this`output
      ensures output == old(output) + js
    {
      output := output + js;
    }

    /** Push flow data for an unlabelled and, if there is a label, a labelled jump. */
    method PushFlow(lab: Label, d: Flow) returns (prev: Flow)
      requires None in flowDatas
      modifies this`flowDatas
      ensures prev == old(flowDatas)[None] && flowDatas == Push(old(flowDatas), lab, d)
      ensures flowDatas.Keys == old(flowDatas).Keys + {None, lab}
    {
      prev := flowDatas[None];
      flowDatas := flowDatas[None := d];
      flowDatas := flowDatas[lab := d];
    }

    /** Deleting the label's entry restores the flow data, for the label was new. */
    method PopFlow(lab: Label, prev: Flow, ghost was: Flows)
      requires None in was && prev == was[None] && NewLabel(lab, was.Keys)
      requires None in flowDatas && flowDatas == Push(was, lab, flowDatas[None])
      modifies this`flowDatas
      ensures flowDatas == was
    {
      flowDatas := flowDatas - {lab};
      flowDatas := flowDatas[None := prev];
    }

    method TranslateCall(f: Name, args: seq<Expr>)
      modifies this`output, this`caseCounter
      ensures Emitted(Code(CallItems(f, args, old(caseCounter)), old(caseCounter) + 1))
    {
      var resumeCase := caseCounter;
      caseCounter := caseCounter + 1;
      Print([BlockingCall(f, args), SetS(resumeCase), Case(resumeCase), ResumeCheck, UnwindCheck]);
    }

    method TranslateAtom(s: Stmt)
      requires IsAtom(s)
      modifies this
      ensures Emitted(EmitAtom(s, old(caseCounter)))
    {
      match s
      case Simple(b) => Print([Do(b)]);
      case Call(x, f, args, blocking) =>
        if blocking {
          TranslateCall(f, args);
          Print([TakeResult(x)]);
        } else {
          Print([PlainCall(x, f, args)]);
        }
      case ShortCircuit(x, isAnd, e, f, args, blocking) =>
        var skipped := Do(Assign(x, Num(if isAnd then 0 else 1)));
        if blocking {
          var skipCase := caseCounter;
          caseCounter := caseCounter + 1;
          Print([JIf(if isAnd then Not(e) else e, [skipped, SetS(skipCase), ContinueTo(Machine)], [])]);
          TranslateCall(f, args);
          Print([TakeResult(x)]);
          Print([Case(skipCase)]);
        } else {
          Print([JIf(e, if isAnd then [PlainCall(x, f, args)] else [skipped], if isAnd then [skipped]
                     else [PlainCall(x, f, args)])]);
        }
      case _ =>
    }

    /** The closure data.postStmt. */
    method TranslatePost(post: Stmts)
      requires Atoms(post)
      modifies this
      ensures Emitted(EmitPost(post, old(caseCounter)))
    {
      hide EmitPost, EmitAtom;
      var rest := post;
      EmptyPost();
      while rest.Cons?
        invariant Atoms(rest) && flowDatas == old(flowDatas)
        invariant output + EmitPost(rest, caseCounter).js == old(output) + EmitPost(post, old(caseCounter)).js
        invariant EmitPost(rest, caseCounter).next == EmitPost(post, old(caseCounter)).next
        decreases rest
      {
        ghost var was, n := output, caseCounter;
        TranslateAtom(rest.head);
        PostStep(was, rest, n);
        rest := rest.tail;
      }
    }

    /** `Printf("$s = %d; continue%s;", ...)` */
    method PrintJump(l: Label, n: nat)
      modifies this`output
      ensures output == old(output) + JumpTo(l, n)
    {
      Print([SetS(n), ContinueTo(if l.Some? then Machine else Inner)]);
    }

    method TranslateStmtList(ss: Stmts)
      requires Ready() && ListFresh(ss, flowDatas.Keys)
      modifies this
      ensures Emitted(EmitList(ss, old(flowDatas), old(caseCounter), inFlat))
      decreases ss, 1
    {
      var rest := ss;
      while rest.Cons?
        invariant rest == ss || rest < ss
        invariant flowDatas == old(flowDatas) && ListFresh(rest, flowDatas.Keys)
        invariant output + EmitList(rest, flowDatas, caseCounter, inFlat).js ==
                  old(output) + EmitList(ss, flowDatas, old(caseCounter), inFlat).js
        invariant EmitList(rest, flowDatas, caseCounter, inFlat).next
                  == EmitList(ss, flowDatas, old(caseCounter), inFlat).next
        decreases rest
      {
        ghost var was, n := output, caseCounter;
        TranslateStmt(rest.head, None);
        assert was + EmitList(rest, flowDatas, n, inFlat).js ==
               output + EmitList(rest.tail, flowDatas, caseCounter, inFlat).js;
        rest := rest.tail;
      }
    }

    method TranslateStmt(s: Stmt, lab: Label)
      requires Ready() && LabelsFresh(s, lab, flowDatas.Keys)
      modifies this
      ensures Emitted(EmitStmt(s, lab, old(flowDatas), old(caseCounter), inFlat))
      decreases s, 2
    {
      match s
      case Block(body) => TranslateStmtList(body);
      case If(cs, flat) => TranslateBranching(cs, flat);
      case TypeSwitch(_, _) => TranslateTypeSwitch(s, lab);
      case Switch(_, _) => TranslateSwitch(s, lab);
      case For(_, _, _, flat) => if flat { TranslateFlatLoop(s, lab); } else { TranslateWhile(s, lab); }
      case Break(l) =>
        var data := Data(flowDatas, l);
        if data.end == 0 { Print([BreakTo(NamedOrInner(l))]); } else { PrintJump(l, data.end); }
      case Continue(l, _) =>
        var data := Data(flowDatas, l);
        TranslatePost(data.post);
        if data.begin == 0 { Print([ContinueTo(NamedOrInner(l))]); } else { PrintJump(l, data.begin); }
      case Return(e) =>
        if inFlat { Print([SetS(-1)]); }
        Print([JReturn(e)]);
      case Labeled(name, s') => TranslateStmt(s', Some(name));
      case _ => TranslateAtom(s);
    }

    /** What a statement inside JavaScript braces prints. */
    method Capture(ss: Stmts) returns (js: seq<Js>)
      requires Ready() && ListFresh(ss, flowDatas.Keys)
      modifies this
      ensures output == old(output) && flowDatas == old(flowDatas)
      ensures var c := EmitList(ss, old(flowDatas), old(caseCounter), inFlat); js == c.js && caseCounter == c.next
      decreases ss, 2
    {
      var saved := output;
      output := [];
      TranslateStmtList(ss);
      js := output;
      output := saved;
    }

    method CaptureChain(cs: Clauses) returns (js: seq<Js>)
      requires Ready() && ClausesFresh(cs, flowDatas.Keys)
      modifies this
      ensures output == old(output) && flowDatas == old(flowDatas)
      ensures var c := EmitNested(cs, old(flowDatas), old(caseCounter), inFlat); js == c.js && caseCounter == c.next
      decreases cs, 0
    {
      match cs
      case End => js := [];
      case Default(body) => js := Capture(body);
      case Clause(c, body, rest) =>
        var thn := Capture(body);
        var els := CaptureChain(rest);
        js := [JIf(c, thn, els)];
    }

    method TranslateBranching(cs: Clauses, flatten: bool)
      requires Ready() && ClausesFresh(cs, flowDatas.Keys)
      modifies this
      ensures Emitted(if flatten then EmitCases(cs, old(flowDatas), old(caseCounter), inFlat)
                      else EmitNested(cs, old(flowDatas), old(caseCounter), inFlat))
      decreases cs, 2
    {
      hide EmitCases, EmitNested, ClausesFresh, Ready;
      if !flatten {
        var js := CaptureChain(cs);
        Print(js);
        return;
      }
      TranslateFlatBranching(cs);
    }

    method TranslateFlatBranching(cs: Clauses)
      requires Ready() && ClausesFresh(cs, flowDatas.Keys)
      modifies this
      ensures Emitted(EmitCases(cs, old(flowDatas), old(caseCounter), inFlat))
      decreases cs, 1
    {
      hide EmitBodies, Heads, JumpTo, ClausesFresh;
      var caseOffset := caseCounter;
      var defaultCase := caseOffset + CountClauses(cs);
      var endCase := defaultCase;
      if HasDefault(cs) { endCase := endCase + 1; }
      caseCounter := endCase + 1;
      ghost var b := EmitBodies(cs, caseOffset, endCase, flowDatas, caseCounter, inFlat);
      RegroupFour(output, Heads(cs, caseOffset), JumpTo(None, defaultCase), b.js, [Case(endCase)]);
      PrintHeads(cs, caseOffset);
      PrintJump(None, defaultCase);
      TranslateBodies(cs, caseOffset, endCase);
      Print([Case(endCase)]);
    }

    lemma RegroupFour(o: seq<Js>, a: seq<Js>, b: seq<Js>, c: seq<Js>, d: seq<Js>)
      ensures o + a + b + c + d == o + (a + b + c + d)
    {
    }

    method PrintHeads(cs: Clauses, caseOffset: nat)
      modifies this`output
      ensures output == old(output) + Heads(cs, caseOffset)
    {
      var rest, i := cs, caseOffset;
      while rest.Clause?
        invariant output + Heads(rest, i) == old(output) + Heads(cs, caseOffset)
        decreases rest
      {
        ghost var was := output;
        Print([JIf(rest.cond, JumpTo(None, i), [])]);
        assert was + Heads(rest, i) == output + Heads(rest.rest, i + 1);
        rest, i := rest.rest, i + 1;
      }
    }

    method TranslateBodies(cs: Clauses, caseOffset: nat, endCase: nat)
      requires Ready() && ClausesFresh(cs, flowDatas.Keys)
      modifies this
      ensures Emitted(EmitBodies(cs, caseOffset, endCase, old(flowDatas), old(caseCounter), inFlat))
      decreases cs, 0
    {
      var rest, i := cs, caseOffset;
      while rest.Clause?
        invariant rest == cs || rest < cs
        invariant flowDatas == old(flowDatas) && ClausesFresh(rest, flowDatas.Keys)
        invariant output + EmitBodies(rest, i, endCase, flowDatas, caseCounter, inFlat).js ==
                  old(output) + EmitBodies(cs, caseOffset, endCase, flowDatas, old(caseCounter), inFlat).js
        invariant EmitBodies(rest, i, endCase, flowDatas, caseCounter, inFlat).next ==
                  EmitBodies(cs, caseOffset, endCase, flowDatas, old(caseCounter), inFlat).next
        decreases rest
      {
        ghost var was, n := output, caseCounter;
        TranslateClause(rest.body, i, endCase, rest.rest.End?);
        Regroup(was, output[|was|..], EmitBodies(rest.rest, i + 1, endCase, flowDatas, caseCounter, inFlat).js);
        rest, i := rest.rest, i + 1;
      }
      if rest.Default? {
        Print([Case(i)]);
        TranslateStmtList(rest.body);
      }
    }

    method TranslateClause(body: Stmts, i: nat, endCase: nat, last: bool)
      requires Ready() && ListFresh(body, flowDatas.Keys)
      modifies this
      ensures var b := EmitList(body, old(flowDatas), old(caseCounter), inFlat);
              Emitted(Code([Case(i)] + (b.js + if !last && !EndsWithReturn(body) then JumpTo(None, endCase) else []),
                           b.next))
      decreases body, 2
    {
      Print([Case(i)]);
      TranslateStmtList(body);
      if !last && !EndsWithReturn(body) { PrintJump(None, endCase); }
    }

    lemma Regroup(a: seq<Js>, b: seq<Js>, c: seq<Js>)
      ensures a + (b + c) == a + b + c
    {
    }

    method TranslateTypeSwitch(s: Stmt, lab: Label)
      requires s.TypeSwitch? && Ready() && LabelsFresh(s, lab, flowDatas.Keys)
      modifies this
      ensures Emitted(EmitStmt(s, lab, old(flowDatas), old(caseCounter), inFlat))
      decreases s, 1
    {
      var endCase := if s.flat then EndCase(s.clauses, caseCounter) else 0;
      var prev := PushFlow(lab, SwitchFlow(flowDatas, endCase));
      if s.flat {
        TranslateBranching(s.clauses, true);
      } else {
        var js := CaptureChain(s.clauses);
        if lab.Some? || HasBreakClauses(s.clauses) { Print([JSwitch0(lab, js)]); } else { Print(js); }
      }
      PopFlow(lab, prev, old(flowDatas));
    }

    method TranslateSwitch(s: Stmt, lab: Label)
      requires s.Switch? && Ready() && LabelsFresh(s, lab, flowDatas.Keys)
      modifies this
      ensures Emitted(EmitStmt(s, lab, old(flowDatas), old(caseCounter), inFlat))
      decreases s, 1
    {
      var endCase := if s.flat then caseCounter else 0;
      if s.flat { caseCounter := caseCounter + 1; }
      var prev := PushFlow(lab, SwitchFlow(flowDatas, endCase));
      if s.flat {
        TranslateStmtList(s.body);
        Print([Case(endCase)]);
      } else {
        var js := Capture(s.body);
        if lab.Some? || HasBreakList(s.body) { Print([JSwitch0(lab, js)]); } else { Print(js); }
      }
      PopFlow(lab, prev, old(flowDatas));
    }

    /** The body of a loop and, unless it ends in a jump, the post statement. */
    method TranslateTurn(s: Stmt)
      requires s.For? && Atoms(s.post) && Ready() && ListFresh(s.body, flowDatas.Keys)
      modifies this
      ensures var b := EmitList(s.body, old(flowDatas), old(caseCounter), inFlat);
              var p := if IsTerminated(s.body) then Code([], b.next) else EmitPost(s.post, b.next);
              Emitted(Code(b.js + p.js, p.next))
      decreases s, 0
    {
      hide EmitList, EmitPost, IsTerminated;
      TranslateStmtList(s.body);
      if !IsTerminated(s.body) { TranslatePost(s.post); }
    }

    method TranslateWhile(s: Stmt, lab: Label)
      requires s.For? && Ready() && LabelsFresh(s, lab, flowDatas.Keys)
      modifies this
      ensures Emitted(EmitWhile(s, lab, old(flowDatas), old(caseCounter), inFlat))
      decreases s, 1
    {
      var prev := PushFlow(lab, Flow(s.post, 0, 0));
      var saved := output;
      output := [];
      if s.cond.Some? { Print([JIf(Not(s.cond.value), [BreakTo(Inner)], [])]); }
      assert output == if s.cond.Some? then [JIf(Not(s.cond.value), [BreakTo(Inner)], [])] else [];
      TranslateTurn(s);
      var body := output;
      output := saved;
      Print([JWhile(lab, body)]);
      PopFlow(lab, prev, old(flowDatas));
    }

    method PrintLoopHead(s: Stmt, beginCase: nat, endCase: nat)
      requires s.For?
      modifies this`output
      ensures var test := if s.cond.Some? then [JIf(Not(s.cond.value), JumpTo(None, endCase), [])] else [];
              output == old(output) + [Case(beginCase)] + test
    {
      Print([Case(beginCase)]);
      if s.cond.Some? { Print([JIf(Not(s.cond.value), JumpTo(None, endCase), [])]); }
    }

    method TranslateFlatLoop(s: Stmt, lab: Label)
      requires s.For? && Ready() && LabelsFresh(s, lab, flowDatas.Keys)
      modifies this
      ensures Emitted(EmitFlatLoop(s, lab, old(flowDatas), old(caseCounter), inFlat))
      decreases s, 1
    {
      hide EmitList, EmitPost, IsTerminated, EmitFlatLoop;
      ghost var was := output;
      var beginCase, endCase := caseCounter, caseCounter + 1;
      caseCounter := caseCounter + 2;
      var prev := PushFlow(lab, Flow(s.post, beginCase, endCase));
      PrintLoopHead(s, beginCase, endCase);
      TranslateTurn(s);
      ghost var turned := output;
      ghost var back := if IsTerminated(s.body) then [] else JumpTo(None, beginCase);
      if !IsTerminated(s.body) { PrintJump(None, beginCase); }
      assert output == turned + back;
      Print([Case(endCase)]);
      PopFlow(lab, prev, old(flowDatas));
      LoopItems(was, s, lab, flowDatas, beginCase, inFlat);
    }
  }

  lemma LoopItems(was: seq<Js>, s: Stmt, lab: Label, env: Flows, n: nat, inFlat: bool)
    requires s.For?
    ensures var test := if s.cond.Some? then [JIf(Not(s.cond.value), JumpTo(None, n + 1), [])] else [];
            var b := EmitList(s.body, Push(env, lab, Flow(s.post, n, n + 1)), n + 2, inFlat);
            var p := if IsTerminated(s.body) then Code([], b.next) else EmitPost(s.post, b.next);
            var back := if IsTerminated(s.body) then [] else JumpTo(None, n);
            && was + [Case(n)] + test + (b.js + p.js) + back + [Case(n + 1)]
               == was + EmitFlatLoop(s, lab, env, n, inFlat).js
            && EmitFlatLoop(s, lab, env, n, inFlat).next == p.next
  {
    hide EmitList, EmitPost, IsTerminated;
  }

  lemma EmptyPost()
    ensures forall n :: EmitPost(Nil, n) == Code([], n)
  { }

  lemma PostStep(was: seq<Js>, post: Stmts, n: nat)
    requires post.Cons?
    ensures var c := EmitAtom(post.head, n);
            && EmitPost(post, n).next == EmitPost(post.tail, c.next).next
            && was + EmitPost(post, n).js == was + c.js + EmitPost(post.tail, c.next).js
  {
    hide EmitAtom;
  }

  /** translateFunctionBody */
  method TranslateFunctionBody(fn: Func) returns (js: JFunc)
    requires ListFresh(fn.body, {None})
    ensures js == Compile(fn)
  {
    var flattened := HasFlatList(fn.body);
    var fc := new FuncContext(flattened);
    assert fc.flowDatas.Keys == {None};
    if flattened { fc.Print([Case(0)]); }
    fc.TranslateStmtList(fn.body);
    if flattened && !EndsWithReturn(fn.body) { fc.TranslateStmt(Return(Num(0)), None); }
    js := if flattened then Flat(fn.params, fc.output) else Plain(fn.params, fc.output);
  }
}
