/** What becomes of a continue that the analysis has not marked. */
module MisplacedCases {
  import opened GoSource
  import opened JsMachine
  import opened Emitter
  import opened AnalysedPrograms

  predicate HasCase(js: seq<Js>) {
    exists k | 0 <= k < |js| :: js[k].Case?
  }

  lemma {:induction false} PostHasCase(post: Stmts, n: nat)
    requires AtomsOnly(post)
    ensures HasCase(EmitPost(post, n).js) <==> HasFlatList(post)
  {
    if post.Cons? {
      var c := EmitAtom(post.head, n);
      AtomHasCase(post.head, n);
      PostHasCase(post.tail, c.next);
      CaseInParts(c.js, EmitPost(post.tail, c.next).js);
    }
  }

  lemma AtomHasCase(s: Stmt, n: nat)
    requires IsAtom(s)
    ensures HasCase(EmitAtom(s, n).js) <==> HasFlat(s)
  {
    var js := EmitAtom(s, n).js;
    if HasFlat(s) {
      assert js[if s.Call? then 2 else 3].Case?;
    }
  }

  lemma CaseInParts(a: seq<Js>, b: seq<Js>)
    ensures HasCase(a + b) <==> HasCase(a) || HasCase(b)
  {
    var c := a + b;
    forall k | 0 <= k < |a| ensures a[k] == c[k] { }
    forall k | 0 <= k < |b| ensures b[k] == c[|a| + k] { }
    forall k | 0 <= k < |c| ensures c[k] == if k < |a| then a[k] else b[k - |a|] { }
  }

  /** `if c { continue }` with the flags that the analysis has given it. */
  function Branch(c: Expr, l: Label, flat: bool): Stmt {
    If(Clause(c, Cons(Continue(l, flat), Nil), End), flat)
  }

  /** When it is not flattened it has a case of the machine inside its braces, where no `switch ($s)` can enter, if and
      only if the post statement of the continue's loop is flattened. */
  lemma CaseInsideIf(c: Expr, l: Label, env: Flows, n: nat, inFlat: bool)
    requires AtomsOnly(Data(env, l).post)
    ensures var js := EmitStmt(Branch(c, l, false), None, env, n, inFlat).js;
            |js| == 1 && js[0].JIf? && js[0].cond == c && (HasCase(js[0].thn) <==> HasFlatList(Data(env, l).post))
  {
    var body := Cons(Continue(l, false), Nil);
    var k := EmitStmt(Continue(l, false), None, env, n, inFlat);
    var post := EmitPost(Data(env, l).post, n);
    PostHasCase(Data(env, l).post, n);
    CaseInParts(post.js, k.js[|post.js|..]);
    assert k.js == post.js + k.js[|post.js|..];
    assert EmitList(body, env, n, inFlat).js == k.js + EmitList(Nil, env, k.next, inFlat).js == k.js;
  }

  function Then(first: Stmts, last: Stmt): Stmts {
    if first.Nil? then Cons(last, Nil) else Cons(first.head, Then(first.tail, last))
  }

  lemma {:induction false} EmitThen(first: Stmts, last: Stmt, env: Flows, n: nat, inFlat: bool)
    ensures var b := EmitList(first, env, n, inFlat);
            EmitList(Then(first, last), env, n, inFlat).js == b.js + EmitStmt(last, None, env, b.next, inFlat).js
    decreases first
  {
    hide EmitStmt;
    if first.Nil? {
      var c := EmitStmt(last, None, env, n, inFlat);
      assert EmitList(Nil, env, c.next, inFlat).js == [];
      assert c.js + [] == [] + c.js;
    } else {
      EmitThen(first.tail, last, env, EmitStmt(first.head, None, env, n, inFlat).next, inFlat);
    }
  }

  /** The loop `for ; ; <-c { first; if x { continue } }`, flattened because its post statement receives. */
  function ReceivingLoop(first: Stmts, flat: bool): Stmt {
    For(None, Cons(Call("_", "$recv", [Local("c")], true), Nil), Then(first, Branch(Local("x"), None, flat)), true)
  }

  /** With the branch not flattened, wherever the loop stands: a case inside its braces. */
  lemma CaseInTheLoop(first: Stmts, env: Flows, n: nat) returns (k: nat)
    ensures var js := EmitStmt(ReceivingLoop(first, false), None, env, n, true).js;
            0 < k < |js| && js[0] == Case(n) && js[k].JIf? && js[k].cond == Local("x") && HasCase(js[k].thn)
  {
    var loop, branch := ReceivingLoop(first, false), Branch(Local("x"), None, false);
    var inner := Push(env, None, Flow(loop.post, n, n + 1));
    var b := EmitList(first, inner, n + 2, true);
    CaseInsideIf(Local("x"), None, inner, b.next, true);
    EmitThen(first, branch, inner, n + 2, true);
    hide EmitList, EmitPost, HasCase, Then, IsTerminated;
    k := 1 + |b.js|;
    assert EmitStmt(loop, None, env, n, true).js == EmitFlatLoop(loop, None, env, n, true).js;
    var js := EmitFlatLoop(loop, None, env, n, true).js;
    assert js[k] == EmitStmt(branch, None, inner, b.next, true).js[0];
  }
}
