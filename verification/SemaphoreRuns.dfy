/** What acquires and releases come to over a whole run, counted by the calls alone. */
module SemaphoreRuns {
  import opened Semaphore

  /** What one step does to the count, the waiting goroutines and those that were woken. */
  ghost predicate Moves(s: State, st: Step, t: State) {
    match st
    case DoAcquire(a, g, lifo) =>
      && a in s.word && t.resuming == s.resuming && OthersWait(s, t, a)
      && if |ResumingOn(s, a)| < s.word[a] then
           t.word == s.word[a := s.word[a] - 1] && Waiters(t, a) == Waiters(s, a)
         else
           && t.word == s.word
           && Waiters(t, a) == if lifo then [Waiter(g, true)] + Waiters(s, a) else Waiters(s, a) + [Waiter(g, false)]
    case DoResume(g) =>
      && g in s.resuming && s.resuming[g] in s.word && 0 < s.word[s.resuming[g]]
      && t.word == s.word[s.resuming[g] := s.word[s.resuming[g]] - 1] && t.resuming == s.resuming - {g}
      && forall b :: Waiters(t, b) == Waiters(s, b)
    case DoRelease(a) =>
      && a in s.word && s.word[a] < W - 1 && t.word == s.word[a := s.word[a] + 1] && OthersWait(s, t, a)
      && if Waiters(s, a) == [] then
           Waiters(t, a) == [] && t.resuming == s.resuming
         else
           Waiters(t, a) == Waiters(s, a)[1..] && t.resuming == s.resuming[Waiters(s, a)[0].g := a]
  }

  ghost predicate OthersWait(s: State, t: State, a: Addr) {
    forall b | b != a :: Waiters(t, b) == Waiters(s, b)
  }

  lemma AcquireMoves(s: State, a: Addr, g: Gid, lifo: bool)
    requires Inv(s) && Enabled(s, DoAcquire(a, g, lifo))
    ensures Moves(s, DoAcquire(a, g, lifo), Acquire(s, a, g, lifo))
  {
    hide Inv, Places, ResumingOn, AtBack, Waits, Acquire, Waiters, Awoken, Shape, OnlyTouches, SemOk;
    Reserved(s, a);
    KnownIn(s, a);
    if s.word[a] == Awoken(s, a) {
      QueuedFields(s, a, g, lifo);
    } else {
      AcquireTakes(s, a, g, lifo);
      Sub32Exact(s.word[a], 1);
    }
  }

  lemma Reserved(s: State, a: Addr)
    requires Inv(s) && a in s.word
    ensures Awoken(s, a) == |ResumingOn(s, a)|
  {
    hide Places, Waiters, Awoken, ResumingOn, AtBack;
    assert SemOk(s, a);
  }

  lemma ResumeMoves(s: State, g: Gid)
    requires Inv(s) && Enabled(s, DoResume(g))
    ensures Moves(s, DoResume(g), Resume(s, g))
  {
    ResumeTakes(s, g);
    hide Inv, Resume;
    ResumedFields(s, g);
  }

  lemma ReleaseMoves(s: State, a: Addr)
    requires Inv(s) && Enabled(s, DoRelease(a))
    ensures Moves(s, DoRelease(a), Release(s, a))
  {
    hide Inv, Waiters, Awoken;
    KnownIn(s, a);
    if Waiters(s, a) == [] {
      Add32Exact(s.word[a], 1);
      assert forall b :: Waiters(Post(s, a), b) == Waiters(s, b) by { PostWaiters(s, a); }
    } else {
      WokenFields(s, a);
    }
  }

  lemma PostWaiters(s: State, a: Addr)
    requires Known(s, a)
    ensures forall b :: Waiters(Post(s, a), b) == Waiters(s, b)
  { }

  /** In every step. */
  lemma StepMoves(s: State, st: Step)
    requires Inv(s) && Enabled(s, st)
    ensures Moves(s, st, Do(s, st)) && Inv(Do(s, st))
  {
    hide Inv, Moves, Acquire, Release, Resume;
    match st
    case DoAcquire(a, g, lifo) => AcquireMoves(s, a, g, lifo); AcquireInv(s, a, g, lifo);
    case DoResume(g) => ResumeMoves(s, g); ResumeInv(s, g);
    case DoRelease(a) => ReleaseMoves(s, a); ReleaseInv(s, a);
  }

  /** How often a run calls runtime_Semrelease, and runtime_SemacquireMutex, on a. */
  function Releases(steps: seq<Step>, a: Addr): nat {
    if steps == [] then 0 else (if steps[0] == DoRelease(a) then 1 else 0) + Releases(steps[1..], a)
  }

  function Acquires(steps: seq<Step>, a: Addr): nat {
    if steps == [] then 0
    else (if steps[0].DoAcquire? && steps[0].a == a then 1 else 0) + Acquires(steps[1..], a)
  }

  /** The permits that a holds, less those that goroutines still want. */
  ghost function Balance(s: State, a: Addr): int
    requires a in s.word
  {
    s.word[a] - |Waiters(s, a)| - |ResumingOn(s, a)|
  }

  lemma AcquireBalance(s: State, st: Step, t: State, b: Addr)
    requires Moves(s, st, t) && st.DoAcquire? && b in s.word
    ensures b in t.word && Balance(t, b) == Balance(s, b) - if b == st.a then 1 else 0
  {
    hide ResumingOn, Waiters;
    SameResuming(s, t);
  }

  lemma ResumeBalance(s: State, st: Step, t: State, b: Addr)
    requires Moves(s, st, t) && st.DoResume? && b in s.word
    ensures b in t.word && Balance(t, b) == Balance(s, b)
  {
    hide ResumingOn, Waiters;
    ResumingLess(s, t, s.resuming[st.g], st.g);
  }

  lemma ReleaseBalance(s: State, st: Step, t: State, b: Addr)
    requires Inv(s) && Moves(s, st, t) && st.DoRelease? && b in s.word
    ensures b in t.word && Balance(t, b) == Balance(s, b) + if b == st.a then 1 else 0
  {
    hide ResumingOn, Waiters, Places, SemOk, Waits;
    var a := st.a;
    if Waiters(s, a) == [] {
      SameResuming(s, t);
    } else {
      IsWaiter(s, a, 0);
      NotResuming(s, Waiters(s, a)[0].g);
      ResumingMore(s, t, a, Waiters(s, a)[0].g);
    }
  }

  lemma StepBalance(s: State, st: Step, t: State, a: Addr)
    requires Inv(s) && Moves(s, st, t) && a in s.word
    ensures a in t.word
    ensures Balance(t, a) == Balance(s, a) + (if st == DoRelease(a) then 1 else 0)
                             - (if st.DoAcquire? && st.a == a then 1 else 0)
  {
    hide Moves, Balance, Inv;
    match st
    case DoAcquire(_, _, _) => AcquireBalance(s, st, t, a);
    case DoResume(_) => ResumeBalance(s, st, t, a);
    case DoRelease(_) => ReleaseBalance(s, st, t, a);
  }

  lemma {:induction false} RunBalance(s: State, steps: seq<Step>, t: State, a: Addr)
    requires Inv(s) && Run(s, steps, t) && a in s.word
    ensures a in t.word && Balance(t, a) == Balance(s, a) + Releases(steps, a) - Acquires(steps, a)
    decreases |steps|
  {
    hide Inv, Balance, Moves, Do;
    if steps != [] {
      var u := Do(s, steps[0]);
      StepMoves(s, steps[0]);
      StepBalance(s, steps[0], u, a);
      RunBalance(u, steps[1..], t, a);
    }
  }

  /** No permit is lost or made up: in every reachable state the count is the first value, one more for each release
      and one less for each acquire that is neither waiting nor on its way out. */
  lemma PermitsConserved(s: State, steps: seq<Step>, t: State, a: Addr)
    requires Fresh(s) && Run(s, steps, t) && a in s.word
    ensures a in t.word
    ensures t.word[a] == s.word[a] + Releases(steps, a) - (Acquires(steps, a) - |Waiters(t, a)| - |ResumingOn(t, a)|)
  {
    FreshInv(s);
    assert ResumingOn(s, a) == {} && Waiters(s, a) == [];
    hide Inv, Fresh, Run;
    RunBalance(s, steps, t, a);
  }
}
