/** The compiled program, driven by the runtime with its stack unwound whenever a call parks, does
    what the source does when its goroutine waits in place. */
module CompilerCorrectness {
  import opened GoSource
  import opened JsMachine
  import opened Emitter
  import opened MoreGas
  import opened SuspendResume
  import opened CaseNumbers
  import opened Flattening

  /** A goroutine that runs `f(args)` until it returns. */
  ghost function Goroutine(P: Prog, O: Oracle, f: Name, args: seq<int>, w: World, m: nat): TOut {
    Drive(CompileProg(P), O, Invoke(CompileProg(P), O, Unwinding, f, args, w, m))
  }

  /** For every gas g of the source there is a gas g + k of the goroutine with the same end: the same
      value in the same world, or both out of gas after the same events. */
  lemma GoroutineFollowsSource(P: Prog, O: Oracle, f: Name, args: seq<int>, w: World, g: nat) returns (k: nat)
    requires OkProg(P)
    ensures match Callee(P, O, f, args, w, g)
            case Done(v, w', left) =>
              forall m: nat | m >= g + k :: Goroutine(P, O, f, args, w, m) == TDone(v, w', left + (m - (g + k)))
            case OutOfGas(w') => Goroutine(P, O, f, args, w, g + k) == TTimeout(w')
  {
    k := SimFn(P, O, f, args, w, g);
    CompiledProgResumable(P);
    forall m: nat ensures Goroutine(P, O, f, args, w, m) == Invoke(CompileProg(P), O, InPlace, f, args, w, m) {
      InvokeTransparent(CompileProg(P), O, f, args, w, m);
    }
  }

  ghost predicate SourceEnds(P: Prog, O: Oracle, f: Name, args: seq<int>, w: World, v: int, w': World) {
    exists g: nat :: EndsWith(Callee(P, O, f, args, w, g), v, w')
  }

  ghost predicate GoroutineEnds(P: Prog, O: Oracle, f: Name, args: seq<int>, w: World, v: int, w': World) {
    exists m: nat :: ReturnsWith(Goroutine(P, O, f, args, w, m), v, w')
  }

  predicate EndsWith(o: FnOutcome, v: int, w: World) {
    o.Done? && o.v == v && o.w == w
  }

  predicate ReturnsWith(o: TOut, v: int, w: World) {
    o.TDone? && o.v == v && o.w == w
  }

  /** With any gas the goroutine ends where the source can end, or is out of gas; it is never stuck. */
  lemma GoroutineSound(P: Prog, O: Oracle, f: Name, args: seq<int>, w: World, m: nat)
    requires OkProg(P)
    ensures var o := Goroutine(P, O, f, args, w, m);
            o.TTimeout? || (o.TDone? && SourceEnds(P, O, f, args, w, o.v, o.w))
  {
    var k := GoroutineFollowsSource(P, O, f, args, w, m);
    var o := Goroutine(P, O, f, args, w, m);
    if !o.TTimeout? {
      CompiledProgResumable(P);
      InvokeTransparent(CompileProg(P), O, f, args, w, m);
      InvokeTransparent(CompileProg(P), O, f, args, w, m + k);
      InvokeMore(CompileProg(P), O, InPlace, f, args, w, m, k);
      assert Goroutine(P, O, f, args, w, m + k) == AddT(o, k);
      assert EndsWith(Callee(P, O, f, args, w, m), o.v, o.w);
    }
  }

  /** The two end together, with the same value and in the same world; so they also diverge together. */
  lemma EndsTogether(P: Prog, O: Oracle, f: Name, args: seq<int>, w: World, v: int, w': World)
    requires OkProg(P)
    ensures SourceEnds(P, O, f, args, w, v, w') <==> GoroutineEnds(P, O, f, args, w, v, w')
  {
    if SourceEnds(P, O, f, args, w, v, w') {
      var g: nat :| EndsWith(Callee(P, O, f, args, w, g), v, w');
      var k := GoroutineFollowsSource(P, O, f, args, w, g);
      assert ReturnsWith(Goroutine(P, O, f, args, w, g + k), v, w');
    }
    if GoroutineEnds(P, O, f, args, w, v, w') {
      var m: nat :| ReturnsWith(Goroutine(P, O, f, args, w, m), v, w');
      GoroutineSound(P, O, f, args, w, m);
    }
  }
}
