/** Unwinding the JavaScript stack at a call that parks and re-entering the saved frames later
    gives the run in which the goroutine simply waits in place. */
module SuspendResume {
  import opened GoSource
  import opened JsMachine

  /** Every call that may park is followed by the code that saves and re-enters the activation. */
  ghost predicate Resumable(code: seq<Js>) {
    forall k | 0 <= k < |code| && code[k].BlockingCall? :: CallSite(code, k)
  }

  ghost predicate CallSite(code: seq<Js>, k: nat) {
    && k + 4 < |code|
    && code[k + 1].SetS? && code[k + 2].Case? && code[k + 2].n == code[k + 1].s
    && FindCase(code, code[k + 1].s) == k + 2
    && code[k + 3].ResumeCheck? && code[k + 4].UnwindCheck?
  }

  ghost predicate ResumableProg(Q: JProg) {
    forall f | f in Q && Q[f].Flat? :: Resumable(Q[f].code)
  }

  /** After a call has returned. */
  lemma AtReturn(Q: JProg, O: Oracle, mode: Mode, f: Name, code: seq<Js>, k: nat, js: JState, g: nat)
    requires k < |code| && CallSite(code, k) && !js.c
    ensures Run(Q, O, mode, f, code, k + 1, js, g) ==
            if js.r.JObj? then TSusp(FnFrame(f, code[k + 1].s, js.locals, js.r), js.w, g)
            else Run(Q, O, mode, f, code, k + 5, js.(s := code[k + 1].s), g)
  {
    var js1 := js.(s := code[k + 1].s);
    assert Run(Q, O, mode, f, code, k + 1, js, g) == Run(Q, O, mode, f, code, k + 2, js1, g);
    assert Run(Q, O, mode, f, code, k + 2, js1, g) == Run(Q, O, mode, f, code, k + 3, js1, g);
    assert Run(Q, O, mode, f, code, k + 3, js1, g) == Run(Q, O, mode, f, code, k + 4, js1, g);
    var m := Next(Q, O, mode, f, code, k + 4, js1, g);
    assert m == if js.r.JObj? then Stop(TSusp(FnFrame(f, js1.s, js.locals, js.r), js.w, g)) else Go(k + 5, js1, g);
  }

  /** Re-entering a frame saved at a call: the callee's frame is re-entered first. */
  lemma AtReentry(Q: JProg, O: Oracle, f: Name, k: nat, locals: Vars, fr: Frame, w: World, g: nat)
    requires f in Q && Q[f].Flat? && k < |Q[f].code| && CallSite(Q[f].code, k)
    ensures var code := Q[f].code;
            var s := code[k + 1].s;
            Resume(Q, O, Unwinding, FnFrame(f, s, locals, JObj(fr)), w, g) ==
            match Resume(Q, O, Unwinding, fr, w, g)
            case TDone(v, w', g') => Run(Q, O, Unwinding, f, code, k + 5, JState(locals, s, false, JInt(v), w'), g')
            case TSusp(fr', w', g') => TSusp(FnFrame(f, s, locals, JObj(fr')), w', g')
            case o => o
  {
    var code := Q[f].code;
    var s := code[k + 1].s;
    var js := JState(locals, s, true, JObj(fr), w);
    assert Resume(Q, O, Unwinding, FnFrame(f, s, locals, JObj(fr)), w, g)
        == Run(Q, O, Unwinding, f, code, k + 2, js, g);
    assert Run(Q, O, Unwinding, f, code, k + 2, js, g) == Run(Q, O, Unwinding, f, code, k + 3, js, g);
    var m := AfterCall(k + 3, js.(c := false), g, Resume(Q, O, Unwinding, fr, w, g));
    if m.Go? {
      assert Run(Q, O, Unwinding, f, code, k + 3, js, g) == Run(Q, O, Unwinding, f, code, k + 4, m.js, m.gas);
      var m' := Next(Q, O, Unwinding, f, code, k + 4, m.js, m.gas);
      assert m' == if m.js.r.JObj? then Stop(TSusp(FnFrame(f, s, locals, m.js.r), m.js.w, m.gas))
          else Go(k + 5, m.js, m.gas);
    }
  }

  /** Driving a frame drives the callee's frame to its value and goes on after the call. */
  lemma {:induction false} DriveCaller(Q: JProg, O: Oracle, f: Name, k: nat, locals: Vars, fr: Frame, w: World, g: nat)
    requires f in Q && Q[f].Flat? && k < |Q[f].code| && CallSite(Q[f].code, k)
    ensures var code := Q[f].code;
            var s := code[k + 1].s;
            Drive(Q, O, TSusp(FnFrame(f, s, locals, JObj(fr)), w, g)) ==
            match Drive(Q, O, TSusp(fr, w, g))
            case TDone(v, w', g') => Drive(Q, O, Run(Q, O, Unwinding, f, code, k + 5,
                                                     JState(locals, s, false, JInt(v), w'), g'))
            case o => o
    decreases g
  {
    if g > 0 {
      AtReentry(Q, O, f, k, locals, fr, Wake(O, w), g - 1);
      var o := Resume(Q, O, Unwinding, fr, Wake(O, w), g - 1);
      if o.TSusp? { DriveCaller(Q, O, f, k, locals, o.fr, o.w, o.gas); }
    }
  }

  lemma {:induction false} DriveEnds(Q: JProg, O: Oracle, o: TOut)
    ensures !Drive(Q, O, o).TSusp?
    decreases if o.TSusp? then 1 + o.gas else 0
  {
    if o.TSusp? && o.gas > 0 { DriveEnds(Q, O, Resume(Q, O, Unwinding, o.fr, Wake(O, o.w), o.gas - 1)); }
  }

  lemma {:induction false} InvokeTransparent(Q: JProg, O: Oracle, f: Name, args: seq<int>, w: World, g: nat)
    requires ResumableProg(Q)
    ensures Drive(Q, O, Invoke(Q, O, Unwinding, f, args, w, g)) == Invoke(Q, O, InPlace, f, args, w, g)
    decreases g, 1, 0
  {
    if f !in Q {
      PrimTransparent(Q, O, f, args, w, g);
    } else if Q[f].Flat? {
      var code := Q[f].code;
      RunTransparent(Q, O, f, FindCase(code, 0), JState(Bind(Q[f].params, args), 0, false, JInt(0), w), g);
    }
  }

  lemma PrimTransparent(Q: JProg, O: Oracle, f: Name, args: seq<int>, w: World, g: nat)
    ensures Drive(Q, O, CallPrim(O, Unwinding, f, args, w, g)) == CallPrim(O, InPlace, f, args, w, g)
  {
    var a := O(w.tick);
    var w1 := StartPrim(w, f, args);
    if a.parks && g > 0 {
      assert Resume(Q, O, Unwinding, PrimFrame(a.value), Wake(O, w1), g - 1) == TDone(a.value, Wake(O, w1), g - 1);
      assert Drive(Q, O, TDone(a.value, Wake(O, w1), g - 1)) == TDone(a.value, Wake(O, w1), g - 1);
    }
  }

  lemma {:induction false} RunTransparent(Q: JProg, O: Oracle, f: Name, pc: nat, js: JState, g: nat)
    requires ResumableProg(Q) && f in Q && Q[f].Flat? && pc <= |Q[f].code|
    requires !js.c && js.r.JInt?
    ensures Drive(Q, O, Run(Q, O, Unwinding, f, Q[f].code, pc, js, g)) == Run(Q, O, InPlace, f, Q[f].code, pc, js, g)
    decreases g, 0, |Q[f].code| - pc
  {
    var code := Q[f].code;
    if pc < |code| {
      var i := code[pc];
      if i.Case? || i.UnwindCheck? || i.ResumeCheck? {
        RunTransparent(Q, O, f, pc + 1, js, g);
      } else if i.BlockingCall? {
        if g > 0 { CallTransparent(Q, O, f, pc, js, g); }
      } else {
        var m := AfterStep(code, pc, js, g, JStep(Q, i, js, g));
        if m.Go? { RunTransparent(Q, O, f, m.pc, m.js, m.gas); }
      }
    }
  }

  lemma {:induction false} CallTransparent(Q: JProg, O: Oracle, f: Name, pc: nat, js: JState, g: nat)
    requires ResumableProg(Q) && f in Q && Q[f].Flat? && pc < |Q[f].code| && Q[f].code[pc].BlockingCall?
    requires !js.c && js.r.JInt? && g > 0
    ensures Drive(Q, O, Run(Q, O, Unwinding, f, Q[f].code, pc, js, g)) == Run(Q, O, InPlace, f, Q[f].code, pc, js, g)
    decreases g, 0, |Q[f].code| - pc, 0
  {
    var code := Q[f].code;
    var i := code[pc];
    assert CallSite(code, pc);
    var args := EvalAll(i.args, js.locals, js.w.globals);
    InvokeTransparent(Q, O, i.f, args, js.w, g - 1);
    var u := Invoke(Q, O, Unwinding, i.f, args, js.w, g - 1);
    var p := Invoke(Q, O, InPlace, i.f, args, js.w, g - 1);
    DriveEnds(Q, O, u);
    if p.TDone? {
      var js' := js.(r := JInt(p.v), w := p.w);
      AtReturn(Q, O, InPlace, f, code, pc, js', p.gas);
      AtReturn(Q, O, Unwinding, f, code, pc, js', p.gas);
      RunTransparent(Q, O, f, pc + 5, js'.(s := code[pc + 1].s), p.gas);
    }
    if u.TSusp? {
      AtReturn(Q, O, Unwinding, f, code, pc, js.(r := JObj(u.fr), w := u.w), u.gas);
      DriveCaller(Q, O, f, pc, js.locals, u.fr, u.w, u.gas);
    }
  }
}
