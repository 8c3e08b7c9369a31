/** A run of the scheduler to a channel that is closed while a select waits to send on it. */
module ClosingExample {
  import opened Scheduler
  import opened SchedulerInvariant
  import opened SchedulerSafety

  /** What goroutine 0 waits for in runtime.Gosched, and goroutine 1 in `select { case c <- 7: }`. */
  const YIELDS := Gor(true, false, true, [RecvCase(Some(1))], Pending)
  const SELECTS := Gor(true, false, false, [SendCase(Some(0), 7)], Pending)
  const STARTS := Gor(false, false, true, [], Pending)
  const FREE := Chan(0, [], [], [], false, false, [], [])

  /** main has made channel 0 and started goroutine 1. */
  const STARTED := S(map[0 := STARTS, 1 := STARTS], map[0 := FREE], Some(0), [1], 2, 2, [], 0, false)

  /** main has yielded. */
  const YIELDED := S(map[0 := YIELDS, 1 := STARTS], map[0 := FREE, 1 := FREE.(recvQ := [Entry(0, 0)], timer := true)],
                     None, [1], 2, 2, [CloseChan(1)], 0, false)

  /** Goroutine 1 waits. */
  const PARKED := S(map[0 := YIELDS, 1 := SELECTS],
                    map[0 := FREE.(sendQ := [Entry(1, 0)]), 1 := FREE.(recvQ := [Entry(0, 0)], timer := true)],
                    None, [], 2, 1, [CloseChan(1)], 0, false)

  /** And main runs again. */
  const WAITING := S(map[0 := YIELDS.(asleep := false, result := Received(ZERO, false)), 1 := SELECTS],
                     map[0 := FREE.(sendQ := [Entry(1, 0)]), 1 := FREE.(closed := true, timer := true)],
                     Some(0), [], 2, 1, [], 0, false)

  lemma ToStarted(rest: seq<Step>, t: S)
    requires Run(STARTED, rest, t)
    ensures Run(Initial(), [OpRunNext] + ([OpMake(0, 0)] + ([OpGo(1)] + rest)), t)
  {
    hide Run;
    var s1 := RunNext(Initial());
    var s2 := MakeChan(s1, 0, 0, false);
    assert Do(s2, OpGo(1)) == STARTED;
    RunCons(s2, OpGo(1), rest, t);
    RunCons(s1, OpMake(0, 0), [OpGo(1)] + rest, t);
    RunCons(Initial(), OpRunNext, [OpMake(0, 0)] + ([OpGo(1)] + rest), t);
  }

  lemma ToYielded(rest: seq<Step>, t: S)
    requires Run(YIELDED, rest, t)
    ensures Run(STARTED, [OpSleep(1)] + ([OpFinish(true)] + rest), t)
  {
    hide Run;
    var s1 := Sleep(STARTED, 1);
    assert s1 == YIELDED.(cur := Some(0), awake := 3) by { Slept(); }
    assert Do(s1, OpFinish(true)) == YIELDED;
    RunCons(s1, OpFinish(true), rest, t);
    RunCons(STARTED, OpSleep(1), [OpFinish(true)] + rest, t);
  }

  lemma Slept()
    ensures Sleep(STARTED, 1) == YIELDED.(cur := Some(0), awake := 3)
  {
    var s := SetTimeout(MakeChan(STARTED, 1, 0, true), CloseChan(1));
    assert Refill(s, 1) == s;
    PushSingle(s.chans, 0, RecvCase(Some(1)));
    hide Push;
    assert [] + [Entry(0, 0)] == [Entry(0, 0)];
    assert s.chans[1 := s.chans[1].(recvQ := [Entry(0, 0)])] == YIELDED.chans;
    assert STARTED.gors[0 := YIELDS] == YIELDED.gors;
  }

  lemma ToParked(rest: seq<Step>, t: S)
    requires Run(PARKED, rest, t)
    ensures Run(YIELDED, [OpRunNext] + ([OpSelect([SendCase(Some(0), 7)], 0)] + ([OpFinish(true)] + rest)), t)
  {
    hide Run;
    var cases := [SendCase(Some(0), 7)];
    var s1 := RunNext(YIELDED);
    Selected7(s1);
    var s2 := PARKED.(cur := Some(1), awake := 2);
    assert Do(s2, OpFinish(true)) == PARKED;
    RunCons(s2, OpFinish(true), rest, t);
    RunCons(s1, OpSelect(cases, 0), [OpFinish(true)] + rest, t);
    RunCons(YIELDED, OpRunNext, [OpSelect(cases, 0)] + ([OpFinish(true)] + rest), t);
  }

  lemma Selected7(s: S)
    requires s == RunNext(YIELDED)
    ensures Enabled(s, OpSelect([SendCase(Some(0), 7)], 0))
    ensures Do(s, OpSelect([SendCase(Some(0), 7)], 0)) == PARKED.(cur := Some(1), awake := 2)
  {
    var cases := [SendCase(Some(0), 7)];
    assert !Ready(s, cases[0]);
    NoneReady(s);
    PushSingle(s.chans, 1, cases[0]);
    hide Push, AnyReady, HasDefault, CommsOk;
    assert [] + [Entry(1, 0)] == [Entry(1, 0)];
    assert s.chans[0 := s.chans[0].(sendQ := [Entry(1, 0)])] == PARKED.chans;
    assert s.gors[1 := SELECTS] == PARKED.gors;
  }

  lemma NoneReady(s: S)
    requires s == RunNext(YIELDED)
    ensures var cases := [SendCase(Some(0), 7)]; CommsOk(s, cases) && !AnyReady(s, cases) && !HasDefault(cases)
  { }

  lemma ToWaiting()
    ensures Run(PARKED, [OpFire(0, 2)] + ([OpRunNext] + []), WAITING)
  {
    hide Run, Fire;
    Fired();
    var s1 := WAITING.(cur := None, scheduled := [0]);
    assert Do(PARKED, OpFire(0, 2)) == s1;
    assert Do(s1, OpRunNext) == WAITING;
    RunNone(WAITING);
    RunCons(s1, OpRunNext, [], WAITING);
    RunCons(PARKED, OpFire(0, 2), [OpRunNext] + [], WAITING);
  }

  lemma FiredWakes(s: S)
    requires s == PARKED.(timers := [], awake := 0, chans := PARKED.chans[1 := PARKED.chans[1].(closed := true)])
    ensures Wake(s, 0, RecvResult(true, 0, ZERO, false)) == WAITING.(cur := None, scheduled := [0])
  {
    hide Drop;
    Dropped();
    var t := Wake(s, 0, RecvResult(true, 0, ZERO, false));
    assert t.chans == WAITING.chans;
    assert t.gors == WAITING.gors;
  }

  lemma Dropped()
    ensures Drop([], 0) == [] && Drop([Entry(1, 0)], 0) == [Entry(1, 0)] && Drop([Entry(0, 0)], 0) == []
  { }

  lemma Fired()
    ensures Fire(PARKED, 0, 2) == WAITING.(cur := None, scheduled := [0])
  {
    var s := PARKED.(timers := [], awake := 0);
    assert PARKED.timers[..0] + PARKED.timers[1..] == [];
    assert Fire(PARKED, 0, 2) == Close(s, 1);
    var s1 := WithChan(s, 1, s.chans[1].(closed := true));
    assert CloseSenders(s1, 1) == s1;
    var t := WAITING.(cur := None, scheduled := [0]);
    FiredWakes(s1);
    assert t.chans[1].recvQ == [] && CloseReceivers(t, 1) == t;
    assert CloseReceivers(s1, 1) == CloseReceivers(t, 1);
  }

  /** It is reached. */
  lemma WaitingReached() returns (steps: seq<Step>)
    ensures Run(Initial(), steps, WAITING)
  {
    hide Run;
    ToWaiting();
    var rest := [OpFire(0, 2)] + ([OpRunNext] + []);
    ToParked(rest, WAITING);
    rest := [OpRunNext] + ([OpSelect([SendCase(Some(0), 7)], 0)] + ([OpFinish(true)] + rest));
    ToYielded(rest, WAITING);
    rest := [OpSleep(1)] + ([OpFinish(true)] + rest);
    ToStarted(rest, WAITING);
    steps := [OpRunNext] + ([OpMake(0, 0)] + ([OpGo(1)] + rest));
  }

  /** When main closes c now, goroutine 1 sleeps on and nothing can wake it. */
  lemma CloseWhileSelecting() returns (steps: seq<Step>)
    ensures Run(Initial(), steps, WAITING) && Running(WAITING) && Usable(WAITING, Some(0))
    ensures !WAITING.chans[0].closed && !OnlyPlainSenders(WAITING, 0)
    ensures var t := CloseThrows(WAITING, 0);
            && t.chans[0].closed && Parked(t, 1)
            && (forall c | c in t.chans :: t.chans[c].sendQ == [] && t.chans[c].recvQ == [])
  {
    hide Run;
    steps := WaitingReached();
    assert CloseThrows(WAITING, 0).chans[0].sendQ == [Entry(1, 0)][1..];
  }
}
