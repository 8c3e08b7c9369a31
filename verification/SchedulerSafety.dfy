/** Safety of the scheduler over whole runs. */
module SchedulerSafety {
  import opened Scheduler
  import opened SchedulerInvariant

  // ----- runs -----

  /** What the step's functions need of the queues; in every reachable state it holds. */
  predicate Safe(s: S, st: Step)
    requires Enabled(s, st)
  {
    match st
    case OpSend(c, _) => Wakeable(s, c)
    case OpRecv(c) => Wakeable(s, c) && (c.Some? ==> forall e | e in s.chans[c.value].sendQ :: e.g != s.cur.value)
    case OpSelect(comms, _) => CommsOk(s, comms)
    case OpFinish(_) => s.cur.value in s.gors
    case OpFire(k, _) => s.timers[k].CloseChan? ==> s.timers[k].c in s.chans && !s.chans[s.timers[k].c].closed
    case _ => true
  }

  function Do(s: S, st: Step): (t: S)
    requires Enabled(s, st)
    ensures !st.OpFinish? && !st.OpStopTimer? ==> t.reported == s.reported && t.cancelled == s.cancelled
  {
    if !Safe(s, st) then s
    else
      match st
      case OpGo(g) => NewGoroutine(s, g)
      case OpMake(c, cap) => MakeChan(s, c, cap, false)
      case OpSend(c, v) => Send(s, c, v)
      case OpRecv(c) => Recv(s, c, true, 0)
      case OpClose(c) => Close(s, c)
      case OpSelect(comms, pick) => Select(s, comms, pick)
      case OpSleep(c) => Sleep(s, c)
      case OpStartTimer(periodic) => SetTimeout(s, Start(periodic))
      case OpStopTimer(k) => StopTimer(s, k)
      case OpExit => Exit(s)
      case OpFinish(checking) => Finish(s, checking)
      case OpRunNext => RunNext(s)
      case OpFire(k, g) => Fire(s, k, g)
  }

  predicate Run(s: S, steps: seq<Step>, t: S)
    decreases |steps|
  {
    if steps == [] then s == t else Enabled(s, steps[0]) && Run(Do(s, steps[0]), steps[1..], t)
  }

  lemma StopTimerInv(s: S, k: nat)
    requires Inv(s) && k < |s.timers|
    ensures Inv(StopTimer(s, k))
  {
    WithoutTimerInv(s, k, true);
    assert StopTimer(s, k) == WithoutTimer(s, k, true);
  }

  /** Every step is safe to run and keeps the invariant. */
  lemma StepInv(s: S, st: Step)
    requires Inv(s) && Enabled(s, st)
    ensures Safe(s, st) && Inv(Do(s, st))
  {
    match st
    case OpGo(g) => NewGoroutineInv(s, g);
    case OpMake(c, cap) => MakeChanInv(s, c, cap, false);
    case OpSend(c, v) => SendInv(s, c, v);
    case OpRecv(c) => RecvInv(s, c, true, 0);
    case OpClose(c) => CloseInv(s, c);
    case OpSelect(comms, pick) => SelectInv(s, comms, pick);
    case OpSleep(c) => SleepInv(s, c);
    case OpStartTimer(periodic) => SetTimeoutInv(s, Start(periodic));
    case OpStopTimer(k) => StopTimerInv(s, k);
    case OpExit => ExitInv(s);
    case OpFinish(checking) => FinishInv(s, checking);
    case OpRunNext => RunNextInv(s);
    case OpFire(k, g) => FireInv(s, k, g);
  }

  /** Over every run from the start of the program. */
  lemma {:induction false} RunInv(s: S, steps: seq<Step>, t: S)
    requires Inv(s) && Run(s, steps, t)
    ensures Inv(t)
    decreases |steps|
  {
    if steps != [] {
      StepInv(s, steps[0]);
      RunInv(Do(s, steps[0]), steps[1..], t);
    }
  }

  /** In every reachable state, on every channel: the values handed out followed by the buffer are
      the values whose send took effect, in that order; the buffer never exceeds the capacity; a
      parked sender means a full buffer, a parked receiver an empty one; senders and receivers are
      parked together only as cases of one select; nobody is parked on a closed channel. */
  lemma ChannelsAlways(steps: seq<Step>, t: S, c: Cid)
    requires Run(Initial(), steps, t) && c in t.chans
    ensures var ch := t.chans[c];
            && ch.sent == ch.received + ch.buf && |ch.buf| <= ch.cap
            && (ch.sendQ != [] ==> |ch.buf| == ch.cap)
            && (ch.recvQ != [] ==> ch.buf == [])
            && (forall a, b | a in ch.sendQ && b in ch.recvQ :: a.g == b.g && a.g in t.gors && !t.gors[a.g].plain)
            && (ch.closed ==> ch.sendQ == [] && ch.recvQ == [])
  {
    hide Inv, Run;
    InitialInv();
    RunInv(Initial(), steps, t);
    InvChannel(t, c);
  }

  lemma InvChannel(t: S, c: Cid)
    requires Inv(t) && c in t.chans
    ensures ChanOk(t.chans[c]) && (t.chans[c].closed ==> t.chans[c].sendQ == [] && t.chans[c].recvQ == [])
    ensures forall a, b | a in t.chans[c].sendQ && b in t.chans[c].recvQ ::
              a.g == b.g && a.g in t.gors && !t.gors[a.g].plain
  {
    hide RunQueue, Counts, TimersOk, NoDup;
    var ch := t.chans[c];
    assert ChanOk(ch);
    forall a, b | a in ch.sendQ && b in ch.recvQ ensures a.g == b.g && a.g in t.gors && !t.gors[a.g].plain {
      assert Sends(t, a, c) && Receives(t, b, c);
      assert a.i != b.i;
    }
  }

  /** In every reachable state: no goroutine is queued twice, or queued while it runs or sleeps, and a
      runnable one is always queued; each entry of a channel queue belongs to a sleeping goroutine
      that waits for that very operation; a sleeping goroutine has an entry, once, for each of its
      cases on a channel. */
  lemma WakeUpsAlways(steps: seq<Step>, t: S)
    requires Run(Initial(), steps, t)
    ensures NoDup(t.scheduled)
    ensures forall g :: g in t.scheduled <==> g in t.gors && !t.gors[g].asleep && t.cur != Some(g)
    ensures forall c, e | c in t.chans :: e in t.chans[c].sendQ <==> Sends(t, e, c)
    ensures forall c, e | c in t.chans :: e in t.chans[c].recvQ <==> Receives(t, e, c)
    ensures forall c | c in t.chans :: NoDup(t.chans[c].sendQ) && NoDup(t.chans[c].recvQ)
    ensures forall g, i | Parked(t, g) && 0 <= i < |t.gors[g].cases| && !t.gors[g].cases[i].Default?
            && t.gors[g].cases[i].c.Some? ::
              t.gors[g].cases[i].c.value in t.chans
  {
    InitialInv();
    RunInv(Initial(), steps, t);
    forall c | c in t.chans ensures NoDup(t.chans[c].sendQ) && NoDup(t.chans[c].recvQ) { assert ChanOk(t.chans[c]); }
    forall g, i | Parked(t, g) && 0 <= i < |t.gors[g].cases| && !t.gors[g].cases[i].Default?
        && t.gors[g].cases[i].c.Some?
      ensures t.gors[g].cases[i].c.value in t.chans
    {
      assert Sends(t, Entry(g, i), t.gors[g].cases[i].c.value) || Receives(t, Entry(g, i), t.gors[g].cases[i].c.value);
    }
  }

  /** Waking a goroutine takes all its entries off all channels and queues it exactly once. */
  lemma WokenOnce(s: S, c: Cid, e: Entry, r: Result)
    requires Inv(s) && CurAwake(s) && c in s.chans && e in s.chans[c].sendQ + s.chans[c].recvQ
    ensures var t := Wake(s, e.g, r);
            && Core(t) && t.scheduled == s.scheduled + [e.g] && e.g !in s.scheduled && t.gors[e.g].result == r
            && (forall d, x | d in t.chans && x in t.chans[d].sendQ + t.chans[d].recvQ :: x.g != e.g)
  {
    assert Sends(s, e, c) || Receives(s, e, c);
    WakeHead(s, c, e, r);
    WakeQueues(s, e.g, r);
  }

  // ----- the deadlock report -----

  /** Nothing is runnable and no callback is outstanding. */
  ghost predicate Dead(s: S) {
    s.cur == None && s.scheduled == [] && s.timers == []
  }

  /** The report appears exactly when nothing is runnable, no callback is outstanding and no callback
      was ever cancelled. */
  lemma DeadlockReport(s: S, checking: bool)
    requires Inv(s) && Enabled(s, OpFinish(checking))
    ensures var t := Finish(s, checking); t.reported <==> s.reported || (checking && Dead(t) && t.cancelled == 0)
  {
    FinishInv(s, checking);
    var t := Finish(s, checking);
    hide QueuesMatch, ChansOk, TimersOk, ClosedEmpty;
    if t.scheduled != [] { assert t.scheduled[0] in AwakeSet(t); }
    if AwakeSet(t) != {} {
      var g :| g in AwakeSet(t);
      assert g in t.scheduled;
    }
  }

  /** The report is sound: no step is possible any more and every goroutine that has not returned is
      asleep. */
  lemma DeadIsFinal(s: S, st: Step)
    requires Inv(s) && Dead(s)
    ensures !Enabled(s, st)
    ensures forall g | g in s.gors && !s.gors[g].exit :: Parked(s, g)
  { }

  lemma StepReport(s: S, st: Step)
    requires Inv(s) && Enabled(s, st)
    ensures Do(s, st).cancelled >= s.cancelled
    ensures s.cancelled > 0 ==> Do(s, st).reported == s.reported
  {
    if st.OpFinish? {
      StepInv(s, st);
      DeadlockReport(s, st.checking);
    }
  }

  /** stopTimer leaves its callback counted for ever: from then on no run reports a deadlock. */
  lemma {:induction false} StoppedTimerSilencesTheReport(s: S, steps: seq<Step>, t: S)
    requires Inv(s) && s.cancelled > 0 && Run(s, steps, t)
    ensures t.reported == s.reported
    decreases |steps|
  {
    if steps != [] {
      StepInv(s, steps[0]);
      StepReport(s, steps[0]);
      StoppedTimerSilencesTheReport(Do(s, steps[0]), steps[1..], t);
    }
  }

  /** main has started a timer and stopped it. */
  function TimerStopped(): S {
    StopTimer(SetTimeout(RunNext(Initial()), Start(false)), 0)
  }

  lemma ToTimerStopped(rest: seq<Step>, t: S)
    requires Run(TimerStopped(), rest, t)
    ensures Run(Initial(), [OpRunNext] + ([OpStartTimer(false)] + ([OpStopTimer(0)] + rest)), t)
  {
    hide Run;
    var s1 := RunNext(Initial());
    var s2 := SetTimeout(s1, Start(false));
    RunCons(s2, OpStopTimer(0), rest, t);
    RunCons(s1, OpStartTimer(false), [OpStopTimer(0)] + rest, t);
    RunCons(Initial(), OpRunNext, [OpStartTimer(false)] + ([OpStopTimer(0)] + rest), t);
  }

  lemma ThenNil() returns (t: S)
    ensures Run(TimerStopped(), [OpRecv(None)] + ([OpFinish(true)] + []), t) && Dead(t) && !t.reported
  {
    hide Run;
    var s4 := Recv(TimerStopped(), None, true, 0);
    t := Finish(s4, true);
    RunNone(t);
    RunCons(s4, OpFinish(true), [], t);
    RunCons(TimerStopped(), OpRecv(None), [OpFinish(true)] + [], t);
  }

  /** main starts a timer, stops it and receives from a nil channel: the program is dead and nothing
      says so. */
  lemma UnreportedDeadlock()
    ensures exists steps, t ::
              Run(Initial(), steps, t) && Dead(t) && !t.reported && steps[|steps| - 1] == OpFinish(true)
  {
    hide Run, Dead, TimerStopped;
    var t := ThenNil();
    var rest := [OpRecv(None)] + ([OpFinish(true)] + []);
    ToTimerStopped(rest, t);
    var steps := [OpRunNext] + ([OpStartTimer(false)] + ([OpStopTimer(0)] + rest));
    assert steps[|steps| - 1] == OpFinish(true);
  }

  lemma RunNone(s: S)
    ensures Run(s, [], s)
  { }

  lemma RunCons(s: S, st: Step, rest: seq<Step>, t: S)
    requires Enabled(s, st) && Run(Do(s, st), rest, t)
    ensures Run(s, [st] + rest, t)
  {
    assert ([st] + rest)[1..] == rest;
  }
}
