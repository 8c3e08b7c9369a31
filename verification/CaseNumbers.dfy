/** The numbers of emitted cases: all distinct, only at the top of the switch, and exactly one for
    every jump. */
module CaseNumbers {
  import opened GoSource
  import opened JsMachine
  import opened Emitter
  import opened SuspendResume

  predicate Within(js: seq<Js>, lo: nat, hi: nat) {
    lo <= hi && forall k | 0 <= k < |js| && js[k].Case? :: lo <= js[k].n < hi
  }

  predicate Distinct(js: seq<Js>) {
    forall i, j | 0 <= i < j < |js| && js[i].Case? && js[j].Case? :: js[i].n != js[j].n
  }

  // A call that may park, with the items that must follow it.
  predicate Site(js: seq<Js>, k: nat) {
    && k + 4 < |js|
    && js[k + 1].SetS? && js[k + 2].Case? && js[k + 2].n == js[k + 1].s
    && js[k + 3].ResumeCheck? && js[k + 4].UnwindCheck?
  }

  predicate Sites(js: seq<Js>) {
    forall k | 0 <= k < |js| && js[k].BlockingCall? :: Site(js, k)
  }

  predicate Shape(js: seq<Js>, lo: nat, hi: nat) {
    Within(js, lo, hi) && Distinct(js) && Sites(js)
  }

  // Items without cases of their own fit anywhere.
  predicate NoCase(js: seq<Js>) {
    forall k | 0 <= k < |js| :: Ordinary(js[k])
  }

  lemma Glue(a: seq<Js>, b: seq<Js>, lo: nat, mid: nat, hi: nat)
    requires Shape(a, lo, mid) && Shape(b, mid, hi)
    ensures Shape(a + b, lo, hi)
  {
    SitesGlue(a, b);
    var c := a + b;
    forall i, j | 0 <= i < j < |c| && c[i].Case? && c[j].Case? ensures c[i].n != c[j].n {
      if i < |a| <= j {
        assert c[i].n < mid <= c[j].n;
      }
    }
  }

  lemma SitesGlue(a: seq<Js>, b: seq<Js>)
    requires Sites(a) && Sites(b)
    ensures Sites(a + b)
  {
    var c := a + b;
    forall k | 0 <= k < |c| && c[k].BlockingCall? ensures Site(c, k) {
      if k < |a| { assert Site(a, k); } else { assert Site(b, k - |a|); }
    }
  }

  lemma GlueNoCase(a: seq<Js>, b: seq<Js>, lo: nat, hi: nat)
    requires (Shape(a, lo, hi) && NoCase(b)) || (NoCase(a) && Shape(b, lo, hi))
    ensures Shape(a + b, lo, hi)
  {
    SitesGlue(a, b);
  }

  lemma GlueCase(n: nat, b: seq<Js>, lo: nat, hi: nat)
    requires Shape(b, lo, hi) && n < lo
    ensures Shape([Case(n)] + b, n, hi) && Shape(b + [Case(n)], n, hi)
  {
    SitesGlue([Case(n)], b);
    SitesGlue(b, [Case(n)]);
  }

  lemma {:induction false} AtomShape(s: Stmt, n: nat)
    ensures Shape(EmitAtom(s, n).js, n, EmitAtom(s, n).next)
  {
    if s.Call? && s.blocking {
      var js := EmitAtom(s, n).js;
      forall k | 0 <= k < |js| && js[k].BlockingCall? ensures Site(js, k) { assert k == 0; }
    } else if s.ShortCircuit? && s.blocking {
      var js := EmitAtom(s, n).js;
      forall k | 0 <= k < |js| && js[k].BlockingCall? ensures Site(js, k) { assert k == 1; }
    }
  }

  lemma {:induction false} PostShape(post: Stmts, n: nat)
    ensures Shape(EmitPost(post, n).js, n, EmitPost(post, n).next)
  {
    if post.Cons? {
      var c := EmitAtom(post.head, n);
      AtomShape(post.head, n);
      PostShape(post.tail, c.next);
      Glue(c.js, EmitPost(post.tail, c.next).js, n, c.next, EmitPost(post.tail, c.next).next);
    }
  }

  lemma {:induction false} StmtShape(s: Stmt, lab: Label, env: Flows, n: nat, inFlat: bool)
    ensures Shape(EmitStmt(s, lab, env, n, inFlat).js, n, EmitStmt(s, lab, env, n, inFlat).next)
    decreases s, 1
  {
    match s
    case Block(body) => ListShape(body, env, n, inFlat);
    case If(cs, flat) => if flat { CasesShape(cs, env, n, inFlat); } else { NestedShape(cs, env, n, inFlat); }
    case TypeSwitch(cs, flat) =>
      if flat { CasesShape(cs, Push(env, lab, SwitchFlow(env, EndCase(cs, n))), n, inFlat); }
      else { NestedShape(cs, Push(env, lab, SwitchFlow(env, 0)), n, inFlat); }
    case Switch(body, flat) =>
      if flat {
        var c := EmitList(body, Push(env, lab, SwitchFlow(env, n)), n + 1, inFlat);
        ListShape(body, Push(env, lab, SwitchFlow(env, n)), n + 1, inFlat);
        GlueCase(n, c.js, n + 1, c.next);
      } else { ListShape(body, Push(env, lab, SwitchFlow(env, 0)), n, inFlat); }
    case For(_, _, _, flat) =>
      if flat { FlatLoopShape(s, lab, env, n, inFlat); } else { WhileShape(s, lab, env, n, inFlat); }
    case Continue(l, _) =>
      PostShape(Data(env, l).post, n);
      var c := EmitPost(Data(env, l).post, n);
      GlueNoCase(c.js, if Data(env, l).begin == 0 then [ContinueTo(NamedOrInner(l))]
                 else JumpTo(l, Data(env, l).begin), n, c.next);
    case Labeled(name, s') => StmtShape(s', Some(name), env, n, inFlat);
    case Break(_) =>
    case Return(_) =>
    case _ => AtomShape(s, n);
  }

  lemma {:induction false} ListShape(ss: Stmts, env: Flows, n: nat, inFlat: bool)
    ensures Shape(EmitList(ss, env, n, inFlat).js, n, EmitList(ss, env, n, inFlat).next)
    decreases ss, 1
  {
    if ss.Cons? {
      var c := EmitStmt(ss.head, None, env, n, inFlat);
      StmtShape(ss.head, None, env, n, inFlat);
      ListShape(ss.tail, env, c.next, inFlat);
      Glue(c.js, EmitList(ss.tail, env, c.next, inFlat).js, n, c.next, EmitList(ss.tail, env, c.next, inFlat).next);
    }
  }

  lemma {:induction false} NestedShape(cs: Clauses, env: Flows, n: nat, inFlat: bool)
    ensures Shape(EmitNested(cs, env, n, inFlat).js, n, EmitNested(cs, env, n, inFlat).next)
    decreases cs, 1
  {
    match cs
    case End =>
    case Default(body) => ListShape(body, env, n, inFlat);
    case Clause(_, body, rest) =>
      ListShape(body, env, n, inFlat);
      NestedShape(rest, env, EmitList(body, env, n, inFlat).next, inFlat);
  }

  lemma {:induction false} WhileShape(s: Stmt, lab: Label, env: Flows, n: nat, inFlat: bool)
    requires s.For?
    ensures Shape(EmitWhile(s, lab, env, n, inFlat).js, n, EmitWhile(s, lab, env, n, inFlat).next)
    decreases s, 0
  {
    var b := EmitList(s.body, Push(env, lab, Flow(s.post, 0, 0)), n, inFlat);
    ListShape(s.body, Push(env, lab, Flow(s.post, 0, 0)), n, inFlat);
    PostShape(s.post, b.next);
  }

  lemma {:induction false} FlatLoopShape(s: Stmt, lab: Label, env: Flows, n: nat, inFlat: bool)
    requires s.For?
    ensures Shape(EmitFlatLoop(s, lab, env, n, inFlat).js, n, EmitFlatLoop(s, lab, env, n, inFlat).next)
    decreases s, 0
  {
    var env' := Push(env, lab, Flow(s.post, n, n + 1));
    var b := EmitList(s.body, env', n + 2, inFlat);
    var p := if IsTerminated(s.body) then Code([], b.next) else EmitPost(s.post, b.next);
    var test := if s.cond.Some? then [JIf(Not(s.cond.value), JumpTo(None, n + 1), [])] else [];
    var back := if IsTerminated(s.body) then [] else JumpTo(None, n);
    ListShape(s.body, env', n + 2, inFlat);
    PostShape(s.post, b.next);
    Glue(b.js, p.js, n + 2, b.next, p.next);
    LoopGlue(test, b.js + p.js, back, n, p.next);
  }

  lemma LoopGlue(test: seq<Js>, turn: seq<Js>, back: seq<Js>, n: nat, hi: nat)
    requires NoCase(test) && NoCase(back) && Shape(turn, n + 2, hi)
    ensures Shape([Case(n)] + test + turn + back + [Case(n + 1)], n, hi)
  {
    GlueNoCase(test, turn, n + 2, hi);
    GlueNoCase(test + turn, back, n + 2, hi);
    GlueCase(n + 1, test + turn + back, n + 2, hi);
    GlueCase(n, test + turn + back + [Case(n + 1)], n + 1, hi);
    assert [Case(n)] + test + turn + back + [Case(n + 1)] == [Case(n)] + (test + turn + back + [Case(n + 1)]);
  }

  lemma {:induction false} HeadsNoCase(cs: Clauses, offset: nat)
    ensures NoCase(Heads(cs, offset))
  {
    if cs.Clause? { HeadsNoCase(cs.rest, offset + 1); }
  }

  // The clause bodies: the cases offset, offset + 1, ... and those of the bodies from n on.
  predicate BodiesShape(js: seq<Js>, offset: nat, count: nat, lo: nat, hi: nat) {
    && lo <= hi && Distinct(js) && Sites(js)
    && forall k | 0 <= k < |js| && js[k].Case? :: offset <= js[k].n < offset + count || lo <= js[k].n < hi
  }

  lemma {:induction false} BodiesHaveShape(cs: Clauses, offset: nat, end: nat, env: Flows, n: nat, inFlat: bool)
    requires EndCase(cs, offset) <= end < n
    ensures var c := EmitBodies(cs, offset, end, env, n, inFlat);
            BodiesShape(c.js, offset, EndCase(cs, offset) - offset, n, c.next)
    decreases cs, 0
  {
    hide Shape, BodiesShape, EmitList, NoCase, JumpTo;
    match cs
    case End => NoBodies(offset, n);
    case Default(body) =>
      ListShape(body, env, n, inFlat);
      LastBody(offset, EmitList(body, env, n, inFlat).js, n, EmitList(body, env, n, inFlat).next);
    case Clause(_, body, rest) =>
      var b := EmitList(body, env, n, inFlat);
      var r := EmitBodies(rest, offset + 1, end, env, b.next, inFlat);
      var tail := if !rest.End? && !EndsWithReturn(body) then JumpTo(None, end) else [];
      ListShape(body, env, n, inFlat);
      JumpNoCase(end);
      ShapeGoesUp(b.js, n, b.next);
      GlueNoCase(b.js, tail, n, b.next);
      GlueCase(offset, b.js + tail, n, b.next);
      BodiesHaveShape(rest, offset + 1, end, env, b.next, inFlat);
      var count := EndCase(rest, offset + 1) - (offset + 1);
      BodyGlue(b.js + tail, r.js, offset, count, n, b.next, r.next);
  }

  lemma ShapeGoesUp(js: seq<Js>, lo: nat, hi: nat)
    requires Shape(js, lo, hi)
    ensures lo <= hi
  { }

  lemma JumpNoCase(end: nat)
    ensures NoCase(JumpTo(None, end)) && NoCase([])
  { }

  lemma NoBodies(offset: nat, n: nat)
    ensures BodiesShape([], offset, 0, n, n)
  { }

  lemma LastBody(offset: nat, js: seq<Js>, lo: nat, hi: nat)
    requires Shape(js, lo, hi) && offset < lo
    ensures BodiesShape([Case(offset)] + js, offset, 1, lo, hi)
  {
    GlueCase(offset, js, lo, hi);
  }

  lemma BodyGlue(first: seq<Js>, rest: seq<Js>, offset: nat, count: nat, lo: nat, mid: nat, hi: nat)
    requires Shape([Case(offset)] + first, offset, mid) && Shape(first, lo, mid) && offset + 1 + count < lo
    requires BodiesShape(rest, offset + 1, count, mid, hi)
    ensures BodiesShape([Case(offset)] + first + rest, offset, count + 1, lo, hi)
  {
    var front := [Case(offset)] + first;
    SitesGlue(front, rest);
    var all := front + rest;
    forall k | 0 <= k < |all| && all[k].Case?
      ensures k < |front| ==> all[k].n == offset || lo <= all[k].n < mid
      ensures k >= |front| ==> offset + 1 <= all[k].n < offset + 1 + count || mid <= all[k].n < hi
    {
      if 0 < k < |front| { assert all[k] == first[k - 1]; }
      if k >= |front| { assert all[k] == rest[k - |front|]; }
    }
    forall i, j | 0 <= i < j < |all| && all[i].Case? && all[j].Case? ensures all[i].n != all[j].n {
      if j < |front| { assert all[i] == front[i] && all[j] == front[j]; }
      else if i >= |front| { assert all[i] == rest[i - |front|] && all[j] == rest[j - |front|]; }
    }
  }

  lemma BodiesGoUp(js: seq<Js>, offset: nat, count: nat, lo: nat, hi: nat)
    requires BodiesShape(js, offset, count, lo, hi)
    ensures lo <= hi
  { }

  lemma BodiesThenEnd(js: seq<Js>, n: nat, end: nat, next: nat)
    requires n <= end && BodiesShape(js, n, end - n, end + 1, next) && end + 1 <= next
    ensures Shape(js + [Case(end)], n, next)
  {
    SitesGlue(js, [Case(end)]);
  }

  lemma {:induction false} CasesShape(cs: Clauses, env: Flows, n: nat, inFlat: bool)
    ensures Shape(EmitCases(cs, env, n, inFlat).js, n, EmitCases(cs, env, n, inFlat).next)
    decreases cs, 1
  {
    hide Shape, BodiesShape, EmitBodies, JumpTo, NoCase;
    var end := EndCase(cs, n);
    var b := EmitBodies(cs, n, end, env, end + 1, inFlat);
    BodiesHaveShape(cs, n, end, env, end + 1, inFlat);
    var front := Heads(cs, n) + JumpTo(None, n + CountClauses(cs));
    HeadsThenJump(cs, n);
    var back := b.js + [Case(end)];
    BodiesGoUp(b.js, n, end - n, end + 1, b.next);
    BodiesThenEnd(b.js, n, end, b.next);
    GlueNoCase(front, back, n, b.next);
    assert EmitCases(cs, env, n, inFlat).js == front + back;
  }

  lemma HeadsThenJump(cs: Clauses, n: nat)
    ensures NoCase(Heads(cs, n) + JumpTo(None, n + CountClauses(cs)))
  {
    HeadsNoCase(cs, n);
  }

  // ----- finding a case -----

  lemma {:induction false} CaseFound(js: seq<Js>, k: nat)
    requires Distinct(js) && k < |js| && js[k].Case?
    ensures FindCase(js, js[k].n) == k
  {
    if js[0].Case? && js[0].n == js[k].n {
      assert k == 0;
    } else {
      assert js[1..][k - 1] == js[k];
      CaseFound(js[1..], k - 1);
    }
  }

  /** A compiled function is a machine whose cases are distinct and whose calls can be resumed. */
  lemma CompiledResumable(fn: Func)
    requires HasFlatList(fn.body)
    ensures Distinct(Compile(fn).code) && Resumable(Compile(fn).code)
    ensures Compile(fn).code[0] == Case(0)
  {
    var b := EmitList(fn.body, TOP, 1, true);
    ListShape(fn.body, TOP, 1, true);
    var tail := if EndsWithReturn(fn.body) then [] else [SetS(-1), JReturn(Num(0))];
    GlueNoCase(b.js, tail, 1, b.next);
    GlueCase(0, b.js + tail, 1, b.next);
    var code := Compile(fn).code;
    assert code == [Case(0)] + (b.js + tail);
    forall k | 0 <= k < |code| && code[k].BlockingCall? ensures CallSite(code, k) {
      assert Site(code, k);
      CaseFound(code, k + 2);
    }
  }

  lemma CompiledProgResumable(P: Prog)
    ensures ResumableProg(CompileProg(P))
  {
    forall f | f in CompileProg(P) && CompileProg(P)[f].Flat? ensures Resumable(CompileProg(P)[f].code) {
      CompiledResumable(P[f]);
    }
  }
}
