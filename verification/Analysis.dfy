/** Which functions and nodes may block: compiler/internal/analysis/info.go, defer.go and return.go.
    Functions of all packages are numbered; nodes are identifiers; a path is a copy of the visitor's
    stack: a node, before it all its ancestors, and maybe other nodes that were left on the stack. */
module Analysis {

  type Fn = nat
  type Node = nat
  type Path = seq<Node>

  datatype Option<T> = None | Some(value: T)

  datatype Defer = BlockingDefer | InstDefer(callee: Fn) | LitDefer(callee: Fn)

  datatype ReturnStmt = ReturnStmt(path: Path, deferStmts: seq<Defer>)

  datatype ContinueStmt = ContinueStmt(post: Option<Node>, path: Path)

  datatype FuncInfo = FuncInfo(blocking: set<Node>, flattened: set<Node>, instCallees: map<Fn, seq<Path>>,
                               litCallees: map<Fn, Path>, deferStmts: seq<Defer>, returnStmts: seq<ReturnStmt>,
                               continueStmts: seq<ContinueStmt>, gotoLabel: bool)

  predicate IsBlocking(fi: FuncInfo) {
    fi.blocking != {}
  }

  function Nodes(p: Path): set<Node> {
    set n | n in p
  }

  function AllNodes(paths: seq<Path>): (s: set<Node>)
    ensures forall n :: n in s <==> exists i :: 0 <= i < |paths| && n in paths[i]
  {
    if paths == [] then {}
    else
      var s := Nodes(paths[0]) + AllNodes(paths[1..]);
      assert forall n :: n in s ==> exists i :: 0 <= i < |paths| && n in paths[i] by {
        forall n | n in AllNodes(paths[1..]) ensures exists i :: 0 <= i < |paths| && n in paths[i] {
          var i :| 0 <= i < |paths[1..]| && n in paths[1..][i];
          assert n in paths[i + 1];
        }
      }
      assert forall n, i | 0 <= i < |paths| && n in paths[i] :: n in s by {
        forall n, i | 0 <= i < |paths| && n in paths[i] ensures n in s {
          if i > 0 { assert paths[1..][i - 1] == paths[i]; }
        }
      }
      s
  }

  function Mark(fi: FuncInfo, s: set<Node>): FuncInfo {
    fi.(blocking := fi.blocking + s, flattened := fi.flattened + s)
  }

  /** Every recorded call has a call site, a site is not empty, and the callee is known. */
  predicate Recorded(fi: FuncInfo, n: nat) {
    && (forall g | g in fi.instCallees ::
          g < n && fi.instCallees[g] != [] && forall p | p in fi.instCallees[g] :: p != [])
    && (forall g | g in fi.litCallees :: g < n && fi.litCallees[g] != [])
  }

  predicate Program(fs: seq<FuncInfo>) {
    forall f | 0 <= f < |fs| :: Recorded(fs[f], |fs|)
  }

  /** f has a recorded call of g. */
  predicate Calls(fs: seq<FuncInfo>, f: Fn, g: Fn) {
    f < |fs| && (g in fs[f].instCallees || g in fs[f].litCallees)
  }

  /** A chain of recorded calls from f to a function with a directly blocking node. */
  predicate Chain(fs: seq<FuncInfo>, f: Fn, chain: seq<Fn>)
    decreases |chain|
  {
    f < |fs| && if chain == [] then fs[f].blocking != {} else Calls(fs, f, chain[0]) && Chain(fs, chain[0], chain[1..])
  }

  ghost predicate MayBlock(fs: seq<FuncInfo>, f: Fn) {
    exists chain :: Chain(fs, f, chain)
  }

  /** n is on the way to a call of a function that may block. */
  ghost predicate BlockingSite(fs: seq<FuncInfo>, f: Fn, n: Node)
    requires f < |fs|
  {
    || (exists g | g in fs[f].instCallees :: MayBlock(fs, g) && n in AllNodes(fs[f].instCallees[g]))
    || (exists g | g in fs[f].litCallees :: MayBlock(fs, g) && n in fs[f].litCallees[g])
  }

  // ----- the state of the propagation -----

  /** n is on the way to a call that is off the list. */
  predicate RemovedSite(was: FuncInfo, now: FuncInfo, n: Node) {
    || (exists g | g in was.instCallees :: g !in now.instCallees && n in AllNodes(was.instCallees[g]))
    || (exists g | g in was.litCallees :: g !in now.litCallees && n in was.litCallees[g])
  }

  /** `now` is `was` without some calls of functions that may block, and with exactly the ways to
      those calls marked. */
  ghost predicate FnProgress(was: seq<FuncInfo>, now: seq<FuncInfo>, f: Fn)
    requires f < |was| == |now|
  {
    && now[f] == was[f].(blocking := now[f].blocking, flattened := now[f].flattened,
                         instCallees := now[f].instCallees, litCallees := now[f].litCallees)
    && (forall g | g in now[f].instCallees :: g in was[f].instCallees && now[f].instCallees[g] == was[f].instCallees[g])
    && (forall g | g in now[f].litCallees :: g in was[f].litCallees && now[f].litCallees[g] == was[f].litCallees[g])
    && (forall g | g in was[f].instCallees && g !in now[f].instCallees :: MayBlock(was, g))
    && (forall g | g in was[f].litCallees && g !in now[f].litCallees :: MayBlock(was, g))
    && (forall n :: n in now[f].blocking <==> n in was[f].blocking || RemovedSite(was[f], now[f], n))
    && (forall n :: n in now[f].flattened <==> n in was[f].flattened || RemovedSite(was[f], now[f], n))
  }

  ghost predicate Progress(was: seq<FuncInfo>, now: seq<FuncInfo>) {
    && |now| == |was|
    && forall f | 0 <= f < |was| :: FnProgress(was, now, f)
  }

  lemma StartProgress(was: seq<FuncInfo>)
    ensures Progress(was, was)
  { }

  /** A function is only ever marked when a chain of calls reaches a blocking node. */
  lemma MarkedMayBlock(was: seq<FuncInfo>, now: seq<FuncInfo>, f: Fn)
    requires Progress(was, now) && f < |was| && IsBlocking(now[f])
    ensures MayBlock(was, f)
  {
    assert FnProgress(was, now, f);
    var n :| n in now[f].blocking;
    if n in was[f].blocking {
      assert Chain(was, f, []);
    } else {
      assert RemovedSite(was[f], now[f], n);
      var g :| Calls(was, f, g) && MayBlock(was, g);
      CallerMayBlock(was, f, g);
    }
  }

  lemma CallerMayBlock(fs: seq<FuncInfo>, f: Fn, g: Fn)
    requires Calls(fs, f, g) && MayBlock(fs, g)
    ensures MayBlock(fs, f)
  {
    var chain :| Chain(fs, g, chain);
    assert ([g] + chain)[1..] == chain;
    assert Chain(fs, f, [g] + chain);
  }

  /** One call of a blocking function is dealt with. */
  function DropInst(fi: FuncInfo, g: Fn): FuncInfo
    requires g in fi.instCallees
  {
    Mark(fi, AllNodes(fi.instCallees[g])).(instCallees := fi.instCallees - {g})
  }

  function DropLit(fi: FuncInfo, g: Fn): FuncInfo
    requires g in fi.litCallees
  {
    Mark(fi, Nodes(fi.litCallees[g])).(litCallees := fi.litCallees - {g})
  }

  lemma DropInstProgress(was: seq<FuncInfo>, now: seq<FuncInfo>, f: Fn, g: Fn)
    requires Progress(was, now) && f < |was| && g in now[f].instCallees && MayBlock(was, g)
    ensures Progress(was, now[f := DropInst(now[f], g)])
  {
    var next := now[f := DropInst(now[f], g)];
    assert FnProgress(was, now, f);
    forall n
      ensures RemovedSite(was[f], next[f], n) <==>
                RemovedSite(was[f], now[f], n) || n in AllNodes(was[f].instCallees[g])
    { }
    forall h | 0 <= h < |was| ensures FnProgress(was, next, h) {
      assert FnProgress(was, now, h);
    }
  }

  lemma DropLitProgress(was: seq<FuncInfo>, now: seq<FuncInfo>, f: Fn, g: Fn)
    requires Progress(was, now) && f < |was| && g in now[f].litCallees && MayBlock(was, g)
    ensures Progress(was, now[f := DropLit(now[f], g)])
  {
    var next := now[f := DropLit(now[f], g)];
    assert FnProgress(was, now, f);
    forall n ensures RemovedSite(was[f], next[f], n) <==> RemovedSite(was[f], now[f], n) || n in was[f].litCallees[g]
    { }
    forall h | 0 <= h < |was| ensures FnProgress(was, next, h) {
      assert FnProgress(was, now, h);
    }
  }

  // ----- the end of the propagation -----

  /** No call of a blocking function is left. */
  ghost predicate Settled(now: seq<FuncInfo>) {
    forall f: Fn, g: Fn | Calls(now, f, g) :: g < |now| && !IsBlocking(now[g])
  }

  lemma {:induction false} ChainIsMarked(was: seq<FuncInfo>, now: seq<FuncInfo>, f: Fn, chain: seq<Fn>)
    requires Program(was) && Progress(was, now) && Settled(now) && Chain(was, f, chain)
    ensures IsBlocking(now[f])
    decreases |chain|
  {
    assert FnProgress(was, now, f) && Recorded(was[f], |was|);
    if chain == [] {
      var n :| n in was[f].blocking;
      assert n in now[f].blocking;
    } else {
      var g := chain[0];
      ChainIsMarked(was, now, g, chain[1..]);
      assert !Calls(now, f, g);
      if g in was[f].instCallees {
        var p := was[f].instCallees[g][0];
        assert p in was[f].instCallees[g];
        assert p[0] in AllNodes(was[f].instCallees[g]);
        assert RemovedSite(was[f], now[f], p[0]);
      } else {
        var p := was[f].litCallees[g];
        assert RemovedSite(was[f], now[f], p[0]);
      }
    }
  }

  /** What PropagateAnalysis must compute of the recorded calls: a function is blocking exactly when a
      chain of calls reaches a directly blocking node, and exactly the ways to calls of such functions
      are marked. */
  ghost predicate Propagated(was: seq<FuncInfo>, now: seq<FuncInfo>) {
    && |now| == |was|
    && forall f | 0 <= f < |was| ::
         && (IsBlocking(now[f]) <==> MayBlock(was, f))
         && (forall n :: n in now[f].blocking <==> n in was[f].blocking || BlockingSite(was, f, n))
         && (forall n :: n in now[f].flattened <==> n in was[f].flattened || BlockingSite(was, f, n))
  }

  lemma SettledIsExact(was: seq<FuncInfo>, now: seq<FuncInfo>)
    requires Program(was) && Progress(was, now) && Settled(now)
    ensures Propagated(was, now)
  {
    forall f | 0 <= f < |was| ensures IsBlocking(now[f]) <==> MayBlock(was, f) {
      if IsBlocking(now[f]) { MarkedMayBlock(was, now, f); }
      if MayBlock(was, f) {
        var chain :| Chain(was, f, chain);
        ChainIsMarked(was, now, f, chain);
      }
    }
    forall f, n | 0 <= f < |was| ensures RemovedSite(was[f], now[f], n) <==> BlockingSite(was, f, n) {
      SitesOfBlocking(was, now, f, n);
    }
    forall f | 0 <= f < |was|
      ensures forall n :: n in now[f].blocking <==> n in was[f].blocking || BlockingSite(was, f, n)
      ensures forall n :: n in now[f].flattened <==> n in was[f].flattened || BlockingSite(was, f, n)
    {
      assert FnProgress(was, now, f);
    }
  }

  lemma SitesOfBlocking(was: seq<FuncInfo>, now: seq<FuncInfo>, f: Fn, n: Node)
    requires Program(was) && Progress(was, now) && Settled(now) && f < |was|
    requires forall g | 0 <= g < |was| :: IsBlocking(now[g]) <==> MayBlock(was, g)
    ensures RemovedSite(was[f], now[f], n) <==> BlockingSite(was, f, n)
  {
    assert FnProgress(was, now, f);
    assert Recorded(was[f], |was|);
    forall g | g in was[f].instCallees ensures g !in now[f].instCallees <==> MayBlock(was, g) {
      assert g in now[f].instCallees ==> Calls(now, f, g);
    }
    forall g | g in was[f].litCallees ensures g !in now[f].litCallees <==> MayBlock(was, g) {
      assert g in now[f].litCallees ==> Calls(now, f, g);
    }
  }

  // ----- what does not change any more -----

  /** IsBlocking of a deferred call. */
  predicate DeferBlocks(fs: seq<FuncInfo>, d: Defer) {
    match d
    case BlockingDefer => true
    case InstDefer(g) => g < |fs| && IsBlocking(fs[g])
    case LitDefer(g) => g < |fs| && IsBlocking(fs[g])
  }

  predicate AnyDeferBlocks(fs: seq<FuncInfo>, ds: seq<Defer>) {
    exists d | d in ds :: DeferBlocks(fs, d)
  }

  /** A deferred call is recorded like any other call: a blocking one has marked its function. */
  predicate DefersRecorded(fi: FuncInfo) {
    && (forall d | d in fi.deferStmts ::
          match d
          case BlockingDefer => IsBlocking(fi)
          case InstDefer(g) => g in fi.instCallees
          case LitDefer(g) => g in fi.litCallees)
    && (forall r, d | r in fi.returnStmts && d in r.deferStmts :: d in fi.deferStmts)
  }

  lemma DeferMarked(was: seq<FuncInfo>, now: seq<FuncInfo>, f: Fn, d: Defer)
    requires Propagated(was, now) && f < |was| && DefersRecorded(was[f]) && d in was[f].deferStmts
             && DeferBlocks(now, d)
    ensures IsBlocking(now[f])
  {
    match d
    case BlockingDefer =>
      assert Chain(was, f, []);
    case InstDefer(g) => CallerMayBlock(was, f, g);
    case LitDefer(g) => CallerMayBlock(was, f, g);
  }

  /** propagateReturnBlocking: the returns whose deferred calls may block, or in a function with goto
      all of them as soon as any deferred call may. */
  predicate ReturnBlocks(fs: seq<FuncInfo>, fi: FuncInfo, r: ReturnStmt) {
    AnyDeferBlocks(fs, if fi.gotoLabel then fi.deferStmts else r.deferStmts)
  }

  predicate ContinueBlocks(fi: FuncInfo, c: ContinueStmt) {
    c.post.Some? && c.post.value in fi.blocking
  }

  // ----- returns and continues -----

  /** The returns rs of fi are marked where a deferred call they must make may block. */
  function ReturnPass(fs: seq<FuncInfo>, fi: FuncInfo, rs: seq<ReturnStmt>): FuncInfo
    decreases |rs|
  {
    if rs == [] then fi
    else ReturnPass(fs, if ReturnBlocks(fs, fi, rs[0]) then Mark(fi, Nodes(rs[0].path)) else fi, rs[1..])
  }

  function ContinuePass(fi: FuncInfo, cs: seq<ContinueStmt>): FuncInfo
    decreases |cs|
  {
    if cs == [] then fi
    else ContinuePass(if ContinueBlocks(fi, cs[0]) then Mark(fi, Nodes(cs[0].path)) else fi, cs[1..])
  }

  /** What propagateControlStatementBlocking makes of one function. */
  function ControlPass(fs: seq<FuncInfo>, fi: FuncInfo): FuncInfo {
    var r := ReturnPass(fs, fi, fi.returnStmts);
    ContinuePass(r, r.continueStmts)
  }

  lemma {:induction false} ReturnPassIs(fs: seq<FuncInfo>, fi: FuncInfo, rs: seq<ReturnStmt>)
    ensures var t := ReturnPass(fs, fi, rs);
            && t == fi.(blocking := t.blocking, flattened := t.flattened)
            && (forall n :: n in t.blocking <==>
                  n in fi.blocking || exists r | r in rs :: ReturnBlocks(fs, fi, r) && n in r.path)
            && (forall n :: n in t.flattened <==>
                  n in fi.flattened || exists r | r in rs :: ReturnBlocks(fs, fi, r) && n in r.path)
    decreases |rs|
  {
    if rs != [] {
      var next := if ReturnBlocks(fs, fi, rs[0]) then Mark(fi, Nodes(rs[0].path)) else fi;
      ReturnPassIs(fs, next, rs[1..]);
      assert forall r :: ReturnBlocks(fs, next, r) == ReturnBlocks(fs, fi, r);
      assert forall r :: r in rs <==> r == rs[0] || r in rs[1..];
      hide ReturnBlocks;
    }
  }

  /** Continue j is marked when its turn comes: its post statement was blocking before, or is on the way
      to an earlier continue that was marked. */
  predicate MarkedInTurn(marks: set<Node>, cs: seq<ContinueStmt>, j: nat)
    requires j < |cs|
    decreases j
  {
    cs[j].post.Some? &&
    (cs[j].post.value in marks
     || exists i | 0 <= i < j :: MarkedInTurn(marks, cs, i) && cs[j].post.value in cs[i].path)
  }

  function ContinueStep(fi: FuncInfo, c: ContinueStmt): FuncInfo {
    if ContinueBlocks(fi, c) then Mark(fi, Nodes(c.path)) else fi
  }

  lemma {:induction false} ContinuePassSnoc(fi: FuncInfo, cs: seq<ContinueStmt>)
    requires cs != []
    ensures ContinuePass(fi, cs) == ContinueStep(ContinuePass(fi, cs[..|cs| - 1]), cs[|cs| - 1])
    decreases |cs|
  {
    if |cs| > 1 {
      ContinuePassSnoc(ContinueStep(fi, cs[0]), cs[1..]);
      assert cs[1..][..|cs| - 2] == cs[..|cs| - 1][1..];
    } else {
      assert cs[1..] == [] && cs[..0] == [];
    }
  }

  lemma {:induction false} MarkedInFront(fi: FuncInfo, cs: seq<ContinueStmt>, j: nat)
    requires j < |cs| - 1
    ensures MarkedInTurn(fi.blocking, cs[..|cs| - 1], j) == MarkedInTurn(fi.blocking, cs, j)
    decreases j
  {
    forall i | 0 <= i < j ensures MarkedInTurn(fi.blocking, cs[..|cs| - 1], i) == MarkedInTurn(fi.blocking, cs, i) {
      MarkedInFront(fi, cs, i);
    }
  }

  predicate ContinueMarks(marks: set<Node>, cs: seq<ContinueStmt>, n: Node) {
    exists j | 0 <= j < |cs| :: MarkedInTurn(marks, cs, j) && n in cs[j].path
  }

  /** The pass marks exactly the ways to the continues that are marked in turn. */
  lemma {:induction false} ContinuePassIs(fi: FuncInfo, cs: seq<ContinueStmt>)
    ensures var t := ContinuePass(fi, cs);
            && t == fi.(blocking := t.blocking, flattened := t.flattened)
            && (forall n :: n in t.blocking <==> n in fi.blocking || ContinueMarks(fi.blocking, cs, n))
            && (forall n :: n in t.flattened <==> n in fi.flattened || ContinueMarks(fi.blocking, cs, n))
    decreases |cs|
  {
    if cs != [] {
      var front, last := cs[..|cs| - 1], cs[|cs| - 1];
      ContinuePassIs(fi, front);
      ContinuePassSnoc(fi, cs);
      forall j | 0 <= j < |front| ensures MarkedInTurn(fi.blocking, front, j) == MarkedInTurn(fi.blocking, cs, j) {
        MarkedInFront(fi, cs, j);
      }
      var p := ContinuePass(fi, front);
      assert ContinueBlocks(p, last) == MarkedInTurn(fi.blocking, cs, |cs| - 1);
      OneMore(fi, cs);
    }
  }

  lemma OneMore(fi: FuncInfo, cs: seq<ContinueStmt>)
    requires cs != []
    requires forall j | 0 <= j < |cs| - 1 ::
               MarkedInTurn(fi.blocking, cs[..|cs| - 1], j) == MarkedInTurn(fi.blocking, cs, j)
    ensures forall n :: ContinueMarks(fi.blocking, cs, n) <==>
                        ContinueMarks(fi.blocking, cs[..|cs| - 1], n)
                            || (MarkedInTurn(fi.blocking, cs, |cs| - 1) && n in cs[|cs| - 1].path)
  { }

  /** In the end a continue is not marked although the post statement of its loop is, if and only if it was
      not marked in turn and the way to a later continue that was leads over that statement. */
  lemma ContinueMissed(fi: FuncInfo, cs: seq<ContinueStmt>, j: nat)
    requires j < |cs|
    ensures (ContinueBlocks(ContinuePass(fi, cs), cs[j]) && !MarkedInTurn(fi.blocking, cs, j))
            <==> (cs[j].post.Some? && !MarkedInTurn(fi.blocking, cs, j)
                  && exists i | j < i < |cs| :: MarkedInTurn(fi.blocking, cs, i) && cs[j].post.value in cs[i].path)
  {
    ContinuePassIs(fi, cs);
  }

  lemma {:induction false} ContinuePassBlocks(fi: FuncInfo, cs: seq<ContinueStmt>)
    ensures IsBlocking(ContinuePass(fi, cs)) == IsBlocking(fi)
    decreases |cs|
  {
    if cs != [] {
      ContinuePassBlocks(if ContinueBlocks(fi, cs[0]) then Mark(fi, Nodes(cs[0].path)) else fi, cs[1..]);
    }
  }

  /** The last pass never makes a function blocking that was not, so calls need not be looked at again. */
  lemma ControlPassBlocksNothing(was: seq<FuncInfo>, mid: seq<FuncInfo>, f: Fn)
    requires Propagated(was, mid) && f < |was| && DefersRecorded(was[f])
    requires mid[f].deferStmts == was[f].deferStmts && mid[f].returnStmts == was[f].returnStmts
    ensures IsBlocking(ControlPass(mid, mid[f])) == IsBlocking(mid[f])
  {
    var fi := mid[f];
    ReturnPassIs(mid, fi, fi.returnStmts);
    var r := ReturnPass(mid, fi, fi.returnStmts);
    if IsBlocking(r) && !IsBlocking(fi) {
      var n :| n in r.blocking;
      var ret :| ret in fi.returnStmts && ReturnBlocks(mid, fi, ret) && n in ret.path;
      var ds := if fi.gotoLabel then fi.deferStmts else ret.deferStmts;
      var d :| d in ds && DeferBlocks(mid, d);
      DeferMarked(was, mid, f, d);
    }
    ContinuePassBlocks(r, r.continueStmts);
  }

  /** The last pass adds exactly the ways to the returns that may block and to the continues that are
      marked in turn; each continue whose post statement was blocking before the pass is one of them. */
  lemma ControlPassIs(fs: seq<FuncInfo>, fi: FuncInfo)
    ensures var r := ReturnPass(fs, fi, fi.returnStmts);
            var t := ControlPass(fs, fi);
            && (forall n :: n in t.blocking <==>
                            n in fi.blocking
                            || (exists ret | ret in fi.returnStmts :: ReturnBlocks(fs, fi, ret) && n in ret.path)
                            || ContinueMarks(r.blocking, fi.continueStmts, n))
            && (forall n :: n in t.flattened <==>
                            n in fi.flattened
                            || (exists ret | ret in fi.returnStmts :: ReturnBlocks(fs, fi, ret) && n in ret.path)
                            || ContinueMarks(r.blocking, fi.continueStmts, n))
            && (forall c, n | c in fi.continueStmts && ContinueBlocks(fi, c) && n in c.path ::
                  n in t.blocking && n in t.flattened)
  {
    ReturnPassIs(fs, fi, fi.returnStmts);
    var r := ReturnPass(fs, fi, fi.returnStmts);
    var cs := fi.continueStmts;
    ContinuePassIs(r, cs);
    forall c, n | c in cs && ContinueBlocks(fi, c) && n in c.path ensures ContinueMarks(r.blocking, cs, n) {
      var j :| 0 <= j < |cs| && cs[j] == c;
      assert MarkedInTurn(r.blocking, cs, j);
    }
  }

  // ----- what the whole analysis comes to -----

  /** A deferred call of which nothing is known, or of a function that may block. */
  ghost predicate MayBlockDeferred(was: seq<FuncInfo>, d: Defer) {
    d == BlockingDefer || (!d.BlockingDefer? && MayBlock(was, d.callee))
  }

  /** n is on the way to a return that must make such a call.  In a function with goto that is every return, as soon as
      the function defers one. */
  ghost predicate ReturnSite(was: seq<FuncInfo>, f: Fn, n: Node)
    requires f < |was|
  {
    exists r, d | r in was[f].returnStmts && d in if was[f].gotoLabel then was[f].deferStmts else r.deferStmts ::
      MayBlockDeferred(was, d) && n in r.path
  }

  /** What is marked before the continues are looked at. */
  ghost predicate MarkedFirst(was: seq<FuncInfo>, f: Fn, n: Node)
    requires f < |was|
  {
    n in was[f].blocking || BlockingSite(was, f, n) || ReturnSite(was, f, n)
  }

  /** f in the end: `first` is what is marked before the continues are looked at. */
  ghost predicate FnAnalysed(was: seq<FuncInfo>, f: Fn, first: set<Node>, now: FuncInfo)
    requires f < |was|
  {
    var cs := was[f].continueStmts;
    && (now.blocking != {} <==> MayBlock(was, f))
    && (forall n :: n in first <==> MarkedFirst(was, f, n))
    && (forall n :: n in now.blocking <==> n in first || ContinueMarks(first, cs, n))
    && (forall n :: n in now.flattened <==>
          n in was[f].flattened || BlockingSite(was, f, n) || ReturnSite(was, f, n) || ContinueMarks(first, cs, n))
    && (forall c, n | c in cs && c.post.Some? && c.post.value in first && n in c.path :: n in now.blocking)
    && (forall n | n in now.blocking && n !in first ::
          exists c | c in cs :: c.post.Some? && c.post.value in now.blocking && n in c.path)
  }

  /** A function is blocking exactly when a chain of calls reaches a blocking node, and exactly these nodes are marked:
      those on the way to such a call, to a return that must make a deferred call that may block, and to a continue
      whose post statement is marked when its turn comes. */
  ghost predicate Analysed(was: seq<FuncInfo>, now: seq<FuncInfo>) {
    |now| == |was| && forall f | 0 <= f < |was| :: InTheEnd(was, f, now[f])
  }

  ghost predicate InTheEnd(was: seq<FuncInfo>, f: Fn, now: FuncInfo)
    requires f < |was|
  {
    exists first :: FnAnalysed(was, f, first, now)
  }

  /** The returns that the last pass marks. */
  lemma ReturnsAre(was: seq<FuncInfo>, mid: seq<FuncInfo>, f: Fn, n: Node)
    requires Propagated(was, mid) && SameCalls(was, mid) && f < |was|
    ensures ReturnSite(was, f, n) <==>
            exists r | r in mid[f].returnStmts :: ReturnBlocks(mid, mid[f], r) && n in r.path
  {
    assert forall d :: DeferBlocks(mid, d) <==> MayBlockDeferred(was, d);
  }

  lemma FunctionAnalysed(was: seq<FuncInfo>, mid: seq<FuncInfo>, f: Fn)
    requires Propagated(was, mid) && SameCalls(was, mid) && f < |was| && DefersRecorded(was[f])
    ensures InTheEnd(was, f, ControlPass(mid, mid[f]))
  {
    var fi, now := mid[f], ControlPass(mid, mid[f]);
    var first, cs := ReturnPass(mid, fi, fi.returnStmts).blocking, fi.continueStmts;
    ControlPassBlocksNothing(was, mid, f);
    ReturnPassIs(mid, fi, fi.returnStmts);
    ControlPassIs(mid, fi);
    ContinuePassIs(ReturnPass(mid, fi, fi.returnStmts), cs);
    hide ControlPass, ReturnPass, BlockingSite, ReturnSite, ReturnBlocks, MayBlock, ContinueMarks, ContinueBlocks;
    forall n ensures ReturnSite(was, f, n) <==>
                     exists r | r in fi.returnStmts :: ReturnBlocks(mid, fi, r) && n in r.path {
      ReturnsAre(was, mid, f, n);
    }
    assert FnAnalysed(was, f, first, now);
  }

  lemma EveryFunctionAnalysed(was: seq<FuncInfo>, mid: seq<FuncInfo>, now: seq<FuncInfo>)
    requires Propagated(was, mid) && SameCalls(was, mid) && |now| == |mid|
    requires forall f | 0 <= f < |was| :: DefersRecorded(was[f])
    requires forall f | 0 <= f < |mid| :: now[f] == ControlPass(mid, mid[f])
    ensures Analysed(was, now)
  {
    hide Propagated, InTheEnd, ControlPass, DefersRecorded;
    forall f | 0 <= f < |was| ensures InTheEnd(was, f, now[f]) {
      FunctionAnalysed(was, mid, f);
    }
  }

  // ----- ancestors -----

  /** Every node comes after its parent. */
  predicate RootPath(parent: map<Node, Node>, p: Path) {
    p != [] && forall i | 0 <= i < |p| && p[i] in parent :: parent[p[i]] in p[..i]
  }

  predicate AncestorClosed(parent: map<Node, Node>, s: set<Node>) {
    forall n | n in s && n in parent :: parent[n] in s
  }

  predicate RootPaths(parent: map<Node, Node>, fi: FuncInfo) {
    && (forall g, p | g in fi.instCallees && p in fi.instCallees[g] :: RootPath(parent, p))
    && (forall g | g in fi.litCallees :: RootPath(parent, fi.litCallees[g]))
    && (forall r | r in fi.returnStmts :: RootPath(parent, r.path))
    && (forall c | c in fi.continueStmts :: RootPath(parent, c.path))
  }

  predicate Closed(parent: map<Node, Node>, fi: FuncInfo) {
    AncestorClosed(parent, fi.blocking) && AncestorClosed(parent, fi.flattened)
  }

  lemma ParentOnPath(parent: map<Node, Node>, p: Path, n: Node)
    requires RootPath(parent, p) && n in p && n in parent
    ensures parent[n] in p
  {
    var i :| 0 <= i < |p| && p[i] == n;
    assert parent[p[i]] in p[..i];
  }

  lemma MarkClosed(parent: map<Node, Node>, fi: FuncInfo, p: Path)
    requires Closed(parent, fi) && RootPath(parent, p)
    ensures Closed(parent, Mark(fi, Nodes(p)))
  {
    forall n | n in p && n in parent ensures parent[n] in p { ParentOnPath(parent, p, n); }
  }

  /** The rounds mark a node with all its ancestors. */
  lemma RoundsClosed(was: seq<FuncInfo>, now: seq<FuncInfo>, f: Fn, parent: map<Node, Node>)
    requires Propagated(was, now) && f < |was| && RootPaths(parent, was[f]) && Closed(parent, was[f])
    ensures Closed(parent, now[f])
  {
    forall n | BlockingSite(was, f, n) && n in parent ensures BlockingSite(was, f, parent[n]) {
      if g :| g in was[f].instCallees && MayBlock(was, g) && n in AllNodes(was[f].instCallees[g]) {
        var ps := was[f].instCallees[g];
        var i :| 0 <= i < |ps| && n in ps[i];
        ParentOnPath(parent, ps[i], n);
        assert parent[n] in AllNodes(ps);
      } else {
        var g :| g in was[f].litCallees && MayBlock(was, g) && n in was[f].litCallees[g];
        ParentOnPath(parent, was[f].litCallees[g], n);
      }
    }
  }

  lemma {:induction false} ReturnsClosed(fs: seq<FuncInfo>, fi: FuncInfo, rs: seq<ReturnStmt>, parent: map<Node, Node>)
    requires Closed(parent, fi) && forall r | r in rs :: RootPath(parent, r.path)
    ensures Closed(parent, ReturnPass(fs, fi, rs))
    decreases |rs|
  {
    if rs != [] {
      MarkClosed(parent, fi, rs[0].path);
      ReturnsClosed(fs, if ReturnBlocks(fs, fi, rs[0]) then Mark(fi, Nodes(rs[0].path)) else fi, rs[1..], parent);
    }
  }

  lemma {:induction false} ContinuesClosed(fi: FuncInfo, cs: seq<ContinueStmt>, parent: map<Node, Node>)
    requires Closed(parent, fi) && forall c | c in cs :: RootPath(parent, c.path)
    ensures Closed(parent, ContinuePass(fi, cs))
    decreases |cs|
  {
    if cs != [] {
      MarkClosed(parent, fi, cs[0].path);
      ContinuesClosed(if ContinueBlocks(fi, cs[0]) then Mark(fi, Nodes(cs[0].path)) else fi, cs[1..], parent);
    }
  }

  /** When the analysis is finished, with a flattened node all its ancestors are flattened, and likewise
      with a blocking one: what the translation relies on. */
  lemma AncestorsMarked(was: seq<FuncInfo>, mid: seq<FuncInfo>, now: seq<FuncInfo>, f: Fn, parent: map<Node, Node>)
    requires Propagated(was, mid) && SameCalls(was, mid) && f < |was| && RootPaths(parent, was[f])
             && Closed(parent, was[f])
    requires |now| == |mid| && now[f] == ControlPass(mid, mid[f])
    ensures Closed(parent, now[f])
  {
    hide Closed, RootPath;
    RoundsClosed(was, mid, f, parent);
    ReturnsClosed(mid, mid[f], mid[f].returnStmts, parent);
    var r := ReturnPass(mid, mid[f], mid[f].returnStmts);
    ReturnPassIs(mid, mid[f], mid[f].returnStmts);
    ContinuesClosed(r, r.continueStmts, parent);
  }

  // ----- the analysis as it runs -----

  class Analysis {
    var funcs: seq<FuncInfo>

    constructor (fs: seq<FuncInfo>)
      ensures funcs == fs
    {
      funcs := fs;
    }

    /** markBlocking: every node of the stack. */
    method MarkBlocking(f: Fn, stack: Path)
      requires f < |funcs|
      modifies this
      ensures funcs == old(funcs)[f := Mark(old(funcs)[f], Nodes(stack))]
    {
      var fi := funcs[f];
      for i := 0 to |stack|
        invariant fi == Mark(old(funcs)[f], Nodes(stack[..i]))
      {
        assert Nodes(stack[..i + 1]) == Nodes(stack[..i]) + {stack[i]};
        assert fi.blocking + {stack[i]} == old(funcs)[f].blocking + Nodes(stack[..i + 1]);
        assert fi.flattened + {stack[i]} == old(funcs)[f].flattened + Nodes(stack[..i + 1]);
        fi := fi.(blocking := fi.blocking + {stack[i]}, flattened := fi.flattened + {stack[i]});
      }
      assert stack[..|stack|] == stack;
      funcs := funcs[f := fi];
    }

    method MarkSites(f: Fn, sites: seq<Path>)
      requires f < |funcs|
      modifies this
      ensures funcs == old(funcs)[f := Mark(old(funcs)[f], AllNodes(sites))]
    {
      ghost var fi := funcs[f];
      assert Mark(fi, AllNodes(sites[..0])) == fi by { assert sites[..0] == [] && fi.blocking + {} == fi.blocking; }
      assert funcs[f := fi] == funcs;
      for i := 0 to |sites|
        invariant |funcs| == |old(funcs)| && funcs == old(funcs)[f := Mark(fi, AllNodes(sites[..i]))]
      {
        AllNodesAppend(sites, i);
        hide AllNodes;
        MarkBlocking(f, sites[i]);
        MarkTwice(fi, AllNodes(sites[..i]), Nodes(sites[i]));
      }
      assert sites[..|sites|] == sites;
    }

    /** A named callee is blocking: its call sites are marked and the entry under the cursor is deleted. */
    method DeleteInst(f: Fn, g: Fn)
      requires f < |funcs| && g in funcs[f].instCallees
      modifies this
      ensures funcs == old(funcs)[f := DropInst(old(funcs)[f], g)]
    {
      MarkSites(f, funcs[f].instCallees[g]);
      funcs := funcs[f := funcs[f].(instCallees := funcs[f].instCallees - {g})];
    }

    method DeleteLit(f: Fn, g: Fn)
      requires f < |funcs| && g in funcs[f].litCallees
      modifies this
      ensures funcs == old(funcs)[f := DropLit(old(funcs)[f], g)]
    {
      MarkBlocking(f, funcs[f].litCallees[g]);
      funcs := funcs[f := funcs[f].(litCallees := funcs[f].litCallees - {g})];
    }

    /** instCallees.Iterate: the keys come in any order. */
    method VisitInstCallees(f: Fn, ghost was: seq<FuncInfo>) returns (done: bool)
      requires f < |funcs| && Program(was) && Progress(was, funcs)
      modifies this
      ensures Progress(was, funcs)
      ensures done ==> funcs == old(funcs)
                       && forall g | g in funcs[f].instCallees :: g < |funcs| && !IsBlocking(funcs[g])
      ensures !done ==> Remaining(funcs) < Remaining(old(funcs))
    {
      assert |funcs| == |was|;
      hide Progress, DropInst, Remaining, Program, IsBlocking;
      done := true;
      ProgressKeys(was, funcs, f);
      var todo := funcs[f].instCallees.Keys;
      while todo != {}
        invariant f < |funcs| == |was| && Progress(was, funcs) && todo <= funcs[f].instCallees.Keys
        invariant done ==> funcs == old(funcs)
                           && forall g | g in funcs[f].instCallees && g !in todo :: g < |funcs| && !IsBlocking(funcs[g])
        invariant !done ==> Remaining(funcs) < Remaining(old(funcs))
        decreases todo
      {
        var g :| g in todo;
        todo := todo - {g};
        ProgressKeys(was, funcs, f);
        if IsBlocking(funcs[g]) {
          MarkedMayBlock(was, funcs, g);
          DropInstProgress(was, funcs, f, g);
          FewerInst(funcs, f, g);
          DroppedKeys(funcs[f], g);
          DeleteInst(f, g);
          done := false;
        }
      }
    }

    method VisitLitCallees(f: Fn, ghost was: seq<FuncInfo>) returns (done: bool)
      requires f < |funcs| && Program(was) && Progress(was, funcs)
      modifies this
      ensures Progress(was, funcs)
      ensures done ==> funcs == old(funcs)
                       && forall g | g in funcs[f].litCallees :: g < |funcs| && !IsBlocking(funcs[g])
      ensures !done ==> Remaining(funcs) < Remaining(old(funcs))
    {
      assert |funcs| == |was|;
      hide Progress, DropLit, Remaining, Program, IsBlocking;
      done := true;
      ProgressKeys(was, funcs, f);
      var todo := funcs[f].litCallees.Keys;
      while todo != {}
        invariant f < |funcs| == |was| && Progress(was, funcs) && todo <= funcs[f].litCallees.Keys
        invariant done ==> funcs == old(funcs)
                           && forall g | g in funcs[f].litCallees && g !in todo :: g < |funcs| && !IsBlocking(funcs[g])
        invariant !done ==> Remaining(funcs) < Remaining(old(funcs))
        decreases todo
      {
        var g :| g in todo;
        todo := todo - {g};
        ProgressKeys(was, funcs, f);
        if IsBlocking(funcs[g]) {
          MarkedMayBlock(was, funcs, g);
          DropLitProgress(was, funcs, f, g);
          FewerLit(funcs, f, g);
          DroppedKeys(funcs[f], g);
          DeleteLit(f, g);
          done := false;
        }
      }
    }

    /** propagateFunctionBlocking for the functions of one package: false if a callee was deleted. */
    method PropagateFunctionBlocking(pkg: seq<Fn>, ghost was: seq<FuncInfo>) returns (done: bool)
      requires Program(was) && Progress(was, funcs) && forall f | f in pkg :: f < |was|
      modifies this
      ensures Progress(was, funcs)
      ensures done ==> funcs == old(funcs) && PackageSettled(funcs, pkg)
      ensures !done ==> Remaining(funcs) < Remaining(old(funcs))
    {
      hide Program, Remaining;
      done := true;
      for i := 0 to |pkg|
        invariant Progress(was, funcs)
        invariant done ==> funcs == old(funcs) && forall f | f in pkg[..i] :: CallerSettled(funcs, f)
        invariant !done ==> Remaining(funcs) < Remaining(old(funcs))
      {
        assert pkg[i] in pkg;
        var d := VisitInstCallees(pkg[i], was);
        done := done && d;
        d := VisitLitCallees(pkg[i], was);
        done := done && d;
        assert pkg[..i + 1] == pkg[..i] + [pkg[i]];
      }
      assert pkg[..|pkg|] == pkg;
    }

    /** The first part of PropagateAnalysis: rounds over all packages until nothing changes.  Each
        unfinished round deletes a callee. */
    method PropagateBlocking(packages: seq<seq<Fn>>)
      requires Program(funcs) && Covers(packages, |funcs|)
      modifies this
      ensures Progress(old(funcs), funcs) && Propagated(old(funcs), funcs) && SameCalls(old(funcs), funcs)
    {
      ghost var was := funcs;
      StartProgress(funcs);
      var done := false;
      while !done
        invariant Progress(was, funcs) && |funcs| == |was|
        invariant done ==> forall k | 0 <= k < |packages| :: PackageSettled(funcs, packages[k])
        decreases Remaining(funcs), !done
      {
        hide Progress, Program, Remaining, PackageSettled, Covers;
        ghost var before := funcs;
        done := true;
        for k := 0 to |packages|
          invariant Progress(was, funcs)
          invariant done ==> funcs == before && forall j | 0 <= j < k :: PackageSettled(funcs, packages[j])
          invariant !done ==> Remaining(funcs) < Remaining(before)
        {
          PackageKnown(packages, k, |was|);
          var d := PropagateFunctionBlocking(packages[k], was);
          if !d { done := false; }
        }
      }
      EveryPackageSettled(funcs, packages);
      assert SameCalls(was, funcs) by {
        forall f | 0 <= f < |was|
          ensures funcs[f].deferStmts == was[f].deferStmts && funcs[f].returnStmts == was[f].returnStmts
          ensures funcs[f].continueStmts == was[f].continueStmts && funcs[f].gotoLabel == was[f].gotoLabel
        {
          assert FnProgress(was, funcs, f);
        }
      }
      SettledIsExact(was, funcs);
    }

    /** deferStmt.IsBlocking over a list, as isAnyDeferBlocking. */
    method IsAnyDeferBlocking(ds: seq<Defer>) returns (b: bool)
      ensures b <==> exists d | d in ds :: d == BlockingDefer || (!d.BlockingDefer? && d.callee < |funcs|
                                                                  && funcs[d.callee].blocking != {})
      ensures b <==> AnyDeferBlocks(funcs, ds)
    {
      assert forall d :: DeferBlocks(funcs, d) <==> d == BlockingDefer || (!d.BlockingDefer? && d.callee < |funcs|
                                                                           && funcs[d.callee].blocking != {});
      for i := 0 to |ds|
        invariant forall k | 0 <= k < i :: !DeferBlocks(funcs, ds[k])
      {
        if DeferBlocks(funcs, ds[i]) { return true; }
      }
      return false;
    }

    /** propagateReturnBlocking. */
    method PropagateReturnBlocking(f: Fn, ghost mid: seq<FuncInfo>)
      requires f < |funcs| && SameBlocking(mid, funcs)
      requires IsBlocking(ReturnPass(mid, funcs[f], funcs[f].returnStmts)) == IsBlocking(funcs[f])
      modifies this
      ensures funcs == old(funcs)[f := ReturnPass(mid, old(funcs)[f], old(funcs)[f].returnStmts)]
    {
      ghost var fi := funcs[f];
      var rs := funcs[f].returnStmts;
      ReturnPassIs(mid, fi, rs);
      var all := false;
      if funcs[f].gotoLabel {
        all := IsAnyDeferBlocking(funcs[f].deferStmts);
        SameAnyDefer(mid, funcs, fi.deferStmts);
      }
      for i := 0 to |rs|
        invariant |funcs| == |old(funcs)| && funcs == old(funcs)[f := funcs[f]] && SameBlocking(mid, funcs)
        invariant funcs[f].gotoLabel == fi.gotoLabel && funcs[f].deferStmts == fi.deferStmts
        invariant ReturnPass(mid, funcs[f], rs[i..]) == ReturnPass(mid, fi, rs)
      {
        ghost var now := funcs[f];
        var blocks := all;
        if !funcs[f].gotoLabel {
          blocks := IsAnyDeferBlocking(rs[i].deferStmts);
          SameAnyDefer(mid, funcs, rs[i].deferStmts);
        }
        ReturnPassIs(mid, if blocks then Mark(now, Nodes(rs[i].path)) else now, rs[i + 1..]);
        assert rs[i..][1..] == rs[i + 1..];
        if blocks { MarkBlocking(f, rs[i].path); }
      }
      assert rs[|rs|..] == [];
    }

    /** propagateContinueBlocking. */
    method PropagateContinueBlocking(f: Fn)
      requires f < |funcs|
      modifies this
      ensures funcs == old(funcs)[f := ContinuePass(old(funcs)[f], old(funcs)[f].continueStmts)]
    {
      var cs := funcs[f].continueStmts;
      for i := 0 to |cs|
        invariant |funcs| == |old(funcs)| && funcs == old(funcs)[f := funcs[f]]
        invariant ContinuePass(funcs[f], cs[i..]) == ContinuePass(old(funcs)[f], cs)
      {
        assert cs[i..][1..] == cs[i + 1..];
        if cs[i].post.Some? && cs[i].post.value in funcs[f].blocking { MarkBlocking(f, cs[i].path); }
      }
      assert cs[|cs|..] == [];
    }

    /** PropagateAnalysis: `mid` is what the rounds leave. */
    method PropagateAnalysis(packages: seq<seq<Fn>>) returns (ghost mid: seq<FuncInfo>)
      requires Program(funcs) && Partition(packages, |funcs|) && forall f | 0 <= f < |funcs| :: DefersRecorded(funcs[f])
      modifies this
      ensures Propagated(old(funcs), mid) && SameBlocking(mid, funcs) && SameCalls(old(funcs), mid)
      ensures forall f | 0 <= f < |mid| :: funcs[f] == ControlPass(mid, mid[f])
      ensures Analysed(old(funcs), funcs)
    {
      hide Propagated, Analysed;
      ghost var was := funcs;
      PropagateBlocking(packages);
      mid := funcs;
      ghost var seen: set<Fn> := {};
      for k := 0 to |packages|
        invariant Controlled(mid, funcs, seen) && SameBlocking(mid, funcs)
        invariant forall f :: f in seen <==> exists j :: 0 <= j < k && f in packages[j]
      {
        for i := 0 to |packages[k]|
          invariant Controlled(mid, funcs, seen) && SameBlocking(mid, funcs)
          invariant forall f :: f in seen <==> f in packages[k][..i] || exists j :: 0 <= j < k && f in packages[j]
        {
          var f := packages[k][i];
          assert packages[k][i] in packages[k];
          assert f !in seen && f < |mid|;
          OnePass(was, mid, funcs, seen, f);
          PropagateReturnBlocking(f, mid);
          PropagateContinueBlocking(f);
          seen := seen + {f};
          assert packages[k][..i + 1] == packages[k][..i] + [f];
        }
        assert packages[k][..|packages[k]|] == packages[k];
      }
      forall f | 0 <= f < |mid| ensures f in seen { assert InSome(packages, f); }
      EveryFunctionAnalysed(was, mid, funcs);
    }
  }

  ghost predicate SameBlocking(a: seq<FuncInfo>, b: seq<FuncInfo>) {
    |a| == |b| && forall f | 0 <= f < |a| :: IsBlocking(a[f]) == IsBlocking(b[f])
  }

  lemma SameAnyDefer(a: seq<FuncInfo>, b: seq<FuncInfo>, ds: seq<Defer>)
    requires SameBlocking(a, b)
    ensures AnyDeferBlocks(a, ds) == AnyDeferBlocks(b, ds)
  {
    assert forall d :: DeferBlocks(a, d) == DeferBlocks(b, d);
  }

  /** The functions seen so far have had their last pass. */
  ghost predicate Controlled(mid: seq<FuncInfo>, now: seq<FuncInfo>, seen: set<Fn>) {
    && |now| == |mid|
    && forall f | 0 <= f < |mid| :: now[f] == if f in seen then ControlPass(mid, mid[f]) else mid[f]
  }

  /** Each function is in one package, once. */
  ghost predicate Partition(packages: seq<seq<Fn>>, n: nat) {
    && Covers(packages, n)
    && (forall j, k, h, i | 0 <= j < |packages| && 0 <= k < |packages| && 0 <= h < |packages[j]|
        && 0 <= i < |packages[k]| && (j != k || h != i) ::
          packages[j][h] != packages[k][i])
  }

  lemma OnePass(was: seq<FuncInfo>, mid: seq<FuncInfo>, now: seq<FuncInfo>, seen: set<Fn>, f: Fn)
    requires Propagated(was, mid) && SameCalls(was, mid) && Controlled(mid, now, seen) && SameBlocking(mid, now)
    requires f < |mid| && f !in seen && DefersRecorded(was[f])
    ensures IsBlocking(ReturnPass(mid, now[f], now[f].returnStmts)) == IsBlocking(now[f])
    ensures var next := now[f := ControlPass(mid, mid[f])]; SameBlocking(mid, next) && Controlled(mid, next, seen + {f})
  {
    ControlPassBlocksNothing(was, mid, f);
    ReturnPassIs(mid, mid[f], mid[f].returnStmts);
    ContinuePassBlocks(ReturnPass(mid, mid[f], mid[f].returnStmts),
                       ReturnPass(mid, mid[f], mid[f].returnStmts).continueStmts);
  }

  /** The rounds leave what the control statements need. */
  ghost predicate SameCalls(was: seq<FuncInfo>, mid: seq<FuncInfo>) {
    |mid| == |was| && forall f | 0 <= f < |was| ::
      mid[f].deferStmts == was[f].deferStmts && mid[f].returnStmts == was[f].returnStmts
      && mid[f].continueStmts == was[f].continueStmts && mid[f].gotoLabel == was[f].gotoLabel
  }

  lemma PackageKnown(packages: seq<seq<Fn>>, k: nat, n: nat)
    requires Covers(packages, n) && k < |packages|
    ensures forall f | f in packages[k] :: f < n
  { }

  lemma EveryPackageSettled(fs: seq<FuncInfo>, packages: seq<seq<Fn>>)
    requires Covers(packages, |fs|) && forall k | 0 <= k < |packages| :: PackageSettled(fs, packages[k])
    ensures Settled(fs)
  {
    forall f: Fn, g: Fn | Calls(fs, f, g) ensures g < |fs| && !IsBlocking(fs[g]) {
      assert InSome(packages, f);
      var k :| 0 <= k < |packages| && f in packages[k];
      assert PackageSettled(fs, packages[k]) && CallerSettled(fs, f);
    }
  }

  /** Neither list of f has a blocking callee. */
  ghost predicate CallerSettled(fs: seq<FuncInfo>, f: Fn) {
    forall g: Fn | Calls(fs, f, g) :: g < |fs| && !IsBlocking(fs[g])
  }

  ghost predicate PackageSettled(fs: seq<FuncInfo>, pkg: seq<Fn>) {
    forall f | f in pkg :: CallerSettled(fs, f)
  }

  /** The functions of the packages are all the functions. */
  ghost predicate Covers(packages: seq<seq<Fn>>, n: nat) {
    && (forall k, f | 0 <= k < |packages| && f in packages[k] :: f < n)
    && (forall f | 0 <= f < n :: InSome(packages, f))
  }

  ghost predicate InSome(packages: seq<seq<Fn>>, f: Fn) {
    exists k :: 0 <= k < |packages| && f in packages[k]
  }

  lemma ProgressKeys(was: seq<FuncInfo>, now: seq<FuncInfo>, f: Fn)
    requires Program(was) && Progress(was, now) && f < |was|
    ensures |now| == |was|
    ensures forall g | g in now[f].instCallees || g in now[f].litCallees :: g < |now|
  {
    assert Recorded(was[f], |was|) && FnProgress(was, now, f);
  }

  lemma DroppedKeys(fi: FuncInfo, g: Fn)
    ensures g in fi.instCallees ==> DropInst(fi, g).instCallees.Keys == fi.instCallees.Keys - {g}
    ensures g in fi.litCallees ==> DropLit(fi, g).litCallees.Keys == fi.litCallees.Keys - {g}
  { }

  lemma MarkTwice(fi: FuncInfo, a: set<Node>, b: set<Node>)
    ensures Mark(Mark(fi, a), b) == Mark(fi, a + b)
  {
    assert fi.blocking + a + b == fi.blocking + (a + b);
    assert fi.flattened + a + b == fi.flattened + (a + b);
  }

  lemma AllNodesAppend(sites: seq<Path>, i: nat)
    requires i < |sites|
    ensures AllNodes(sites[..i + 1]) == AllNodes(sites[..i]) + Nodes(sites[i])
  {
    var a, b := sites[..i + 1], sites[..i];
    forall n ensures n in AllNodes(a) <==> n in AllNodes(b) || n in Nodes(sites[i]) {
      if n in AllNodes(a) {
        var k :| 0 <= k < |a| && n in a[k];
        if k < i { assert n in b[k]; }
      }
      if n in AllNodes(b) {
        var k :| 0 <= k < |b| && n in b[k];
        assert n in a[k];
      }
      if n in Nodes(sites[i]) { assert n in a[i]; }
    }
  }

  /** The recorded calls that have not been dealt with. */
  function Remaining(fs: seq<FuncInfo>): nat {
    if fs == [] then 0 else |fs[0].instCallees| + |fs[0].litCallees| + Remaining(fs[1..])
  }

  lemma {:induction false} FewerCalls(fs: seq<FuncInfo>, f: Fn, fi: FuncInfo)
    requires f < |fs| && |fi.instCallees| + |fi.litCallees| < |fs[f].instCallees| + |fs[f].litCallees|
    ensures Remaining(fs[f := fi]) < Remaining(fs)
  {
    if f > 0 {
      FewerCalls(fs[1..], f - 1, fi);
      assert fs[f := fi][1..] == fs[1..][f - 1 := fi];
    } else {
      assert fs[f := fi][1..] == fs[1..];
    }
  }

  lemma FewerInst(fs: seq<FuncInfo>, f: Fn, g: Fn)
    requires f < |fs| && g in fs[f].instCallees
    ensures Remaining(fs[f := DropInst(fs[f], g)]) < Remaining(fs)
  {
    MapShrinks(fs[f].instCallees, g);
    FewerCalls(fs, f, DropInst(fs[f], g));
  }

  lemma FewerLit(fs: seq<FuncInfo>, f: Fn, g: Fn)
    requires f < |fs| && g in fs[f].litCallees
    ensures Remaining(fs[f := DropLit(fs[f], g)]) < Remaining(fs)
  {
    MapShrinks(fs[f].litCallees, g);
    FewerCalls(fs, f, DropLit(fs[f], g));
  }

  lemma MapShrinks<T>(m: map<Fn, T>, g: Fn)
    requires g in m
    ensures |m - {g}| < |m|
  {
    assert (m - {g}).Keys == m.Keys - {g};
    assert |m - {g}| == |(m - {g}).Keys|;
  }
}
