/** What one step does to channels, callbacks and the run queue, and what it leaves alone. */
module SchedulerFrame {
  import opened Scheduler
  import opened SchedulerInvariant
  import opened SchedulerSafety

  // ----- channels -----

  /** The step that closes c: $close, or the callback of a sleeper. */
  predicate Closes(s: S, st: Step, c: Cid) {
    st == OpClose(c) || (st.OpFire? && st.k < |s.timers| && s.timers[st.k] == CloseChan(c))
  }

  /** A channel keeps its capacity, and is closed by a close alone. */
  ghost predicate ChannelsKept(s: S, st: Step, t: S) {
    forall c | c in s.chans ::
      && c in t.chans && t.chans[c].cap == s.chans[c].cap && t.chans[c].timer == s.chans[c].timer
      && (t.chans[c].closed <==> s.chans[c].closed || Closes(s, st, c))
  }

  /** A channel is made by `make`, or for a goroutine that sleeps, which then waits on it. */
  ghost predicate ChannelsMade(s: S, st: Step, t: S) {
    && (st.OpMake? ==> st.cid in t.chans) && (st.OpSleep? ==> st.cid in t.chans)
    && forall c | c in t.chans && c !in s.chans ::
         || (st.OpMake? && c == st.cid && t.chans[c] == Chan(st.cap, [], [], [], false, false, [], []))
         || (st == OpSleep(c) && s.cur.Some?
             && t.chans[c] == Chan(0, [], [], [Entry(s.cur.value, 0)], false, true, [], []))
  }

  // ----- callbacks -----

  /** The k-th element is gone and the others keep their order. */
  predicate Without<T(==)>(was: seq<T>, now: seq<T>, k: nat) {
    && k < |was| && |now| == |was| - 1
    && (forall j | 0 <= j < k :: now[j] == was[j])
    && (forall j | k <= j < |now| :: now[j] == was[j + 1])
  }

  /** A callback is outstanding from when it is set until it fires or is stopped; a periodic one is set again when it
      fires. */
  ghost predicate TimersKept(s: S, st: Step, t: S) {
    match st
    case OpSleep(c) => t.timers == s.timers + [CloseChan(c)]
    case OpStartTimer(periodic) => t.timers == s.timers + [Start(periodic)]
    case OpStopTimer(k) => Without(s.timers, t.timers, k) && t.cancelled == s.cancelled + 1
    case OpFire(k, _) =>
      && k < |s.timers|
      && if s.timers[k] == Start(true) then
           t.timers != [] && t.timers[|t.timers| - 1] == Start(true)
           && Without(s.timers, t.timers[..|t.timers| - 1], k)
         else
           Without(s.timers, t.timers, k)
    case _ => t.timers == s.timers
  }

  // ----- goroutines -----

  /** Goroutines run in the order in which they became runnable: the running one leaves the front of the queue, and
      whoever is started or woken goes to the end. */
  ghost predicate QueueKept(s: S, st: Step, t: S) {
    && if st.OpRunNext? then s.scheduled != [] && t.cur == Some(s.scheduled[0]) && t.scheduled == s.scheduled[1..]
       else s.scheduled <= t.scheduled && (if st.OpFinish? then t.cur == None else t.cur == s.cur)
  }

  /** A goroutine is started by a `go` statement, or by the callback of a timer that starts one. */
  ghost predicate GoroutinesMade(s: S, st: Step, t: S) {
    && s.gors.Keys <= t.gors.Keys
    && (forall g | Starts(s, st, g) ::
          && g in t.gors && g !in s.gors && t.scheduled == s.scheduled + [g]
          && t.gors[g] == Gor(false, false, true, [], Pending))
    && (forall g | g in t.gors && g !in s.gors :: Starts(s, st, g))
  }

  predicate Starts(s: S, st: Step, g: Gid) {
    st == OpGo(g) || (st.OpFire? && st.g == g && st.k < |s.timers| && s.timers[st.k].Start?)
  }

  ghost predicate Frame(s: S, st: Step, t: S) {
    && ChannelsKept(s, st, t) && ChannelsMade(s, st, t) && TimersKept(s, st, t)
    && QueueKept(s, st, t) && GoroutinesMade(s, st, t)
  }

  // ----- the parts of a step -----

  /** No channel is made, and none is closed but those in `closing`. */
  ghost predicate SameChannels(s: S, t: S, closing: set<Cid>) {
    && t.chans.Keys == s.chans.Keys && t.gors.Keys == s.gors.Keys && t.timers == s.timers && t.cur == s.cur
    && s.scheduled <= t.scheduled
    && forall c | c in s.chans ::
         && t.chans[c].cap == s.chans[c].cap && t.chans[c].timer == s.chans[c].timer
         && (t.chans[c].closed <==> s.chans[c].closed || c in closing)
  }

  lemma WakeChannels(s: S, g: Gid, r: Result)
    requires g in s.gors
    ensures SameChannels(s, Wake(s, g, r), {})
  { }

  lemma ParkChannels(s: S, cases: seq<Comm>, plain: bool)
    requires Running(s)
    ensures SameChannels(s, Park(s, cases, plain), {})
  {
    PushAppends(s.chans, s.cur.value, cases, 0);
  }

  lemma SendChannels(s: S, c: Option<Cid>, v: Val)
    requires Running(s) && (c.Some? ==> c.value in s.chans) && Wakeable(s, c)
    ensures SameChannels(s, Send(s, c, v), {})
  {
    hide Push, Wake;
    if c.Some? && s.chans[c.value].recvQ != [] {
      var e := s.chans[c.value].recvQ[0];
      WakeChannels(s, e.g, RecvResult(s.gors[e.g].plain, e.i, v, true));
    } else {
      ParkChannels(s, [SendCase(c, v)], true);
    }
  }

  lemma RefillChannels(s: S, c: Cid)
    requires c in s.chans && Wakeable(s, Some(c))
    ensures SameChannels(s, Refill(s, c), {})
    ensures Running(s) && (forall e | e in s.chans[c].sendQ :: e.g != s.cur.value) ==> Running(Refill(s, c))
  {
    hide DropAll;
    if s.chans[c].sendQ != [] {
      var e := s.chans[c].sendQ[0];
      WakeChannels(s, e.g, SendResult(s.gors[e.g].plain, e.i, false));
    }
  }

  lemma RecvChannels(s: S, c: Option<Cid>, plain: bool, i: nat)
    requires Running(s) && (c.Some? ==> c.value in s.chans) && Wakeable(s, c)
    requires c.Some? ==> forall e | e in s.chans[c.value].sendQ :: e.g != s.cur.value
    ensures SameChannels(s, Recv(s, c, plain, i), {})
  {
    hide Push, Wake;
    if c == None {
      ParkChannels(s, [RecvCase(None)], true);
    } else {
      RefillChannels(s, c.value);
      ParkChannels(Refill(s, c.value), [RecvCase(c)], true);
      hide Refill;
    }
  }

  lemma SelectChannels(s: S, comms: seq<Comm>, pick: nat)
    requires Inv(s) && Enabled(s, OpSelect(comms, pick)) && CommsOk(s, comms)
    ensures SameChannels(s, Select(s, comms, pick), {})
  {
    hide Inv, Wakeable, Send, Recv, Park;
    if AnyReady(s, comms) {
      match comms[pick]
      case RecvCase(c) => RecvChannels(s, c, false, pick);
      case SendCase(c, v) => SendChannels(s, c, v);
    } else {
      ParkChannels(s, comms, false);
    }
  }

  lemma {:induction false} CloseSendersChannels(s: S, c: Cid)
    requires c in s.chans
    ensures SameChannels(s, CloseSenders(s, c), {})
    decreases |s.chans[c].sendQ|
  {
    var q := s.chans[c].sendQ;
    if q != [] && q[0].g in s.gors {
      var r := SendResult(s.gors[q[0].g].plain, q[0].i, true);
      WakeChannels(s, q[0].g, r);
      DropShorter(q, q[0].g);
      CloseSendersChannels(Wake(s, q[0].g, r), c);
    }
  }

  lemma {:induction false} CloseReceiversChannels(s: S, c: Cid)
    requires c in s.chans
    ensures SameChannels(s, CloseReceivers(s, c), {})
    decreases |s.chans[c].recvQ|
  {
    var q := s.chans[c].recvQ;
    if q != [] && q[0].g in s.gors {
      var r := RecvResult(s.gors[q[0].g].plain, q[0].i, ZERO, false);
      WakeChannels(s, q[0].g, r);
      DropShorter(q, q[0].g);
      CloseReceiversChannels(Wake(s, q[0].g, r), c);
    }
  }

  lemma CloseChannels(s: S, c: Cid)
    requires c in s.chans
    ensures SameChannels(s, Close(s, c), {c})
  {
    hide CloseSenders, CloseReceivers;
    var s1 := WithChan(s, c, s.chans[c].(closed := true));
    CloseSendersChannels(s1, c);
    CloseReceiversChannels(CloseSenders(s1, c), c);
  }

  // ----- every step -----

  lemma SleepFrame(s: S, c: Cid)
    requires Running(s) && c !in s.chans
    ensures Frame(s, OpSleep(c), Sleep(s, c))
  {
    var s1 := SetTimeout(MakeChan(s, c, 0, true), CloseChan(c));
    assert Refill(s1, c) == s1;
    PushSingle(s1.chans, s.cur.value, RecvCase(Some(c)));
    hide Push;
  }

  lemma FireFrame(s: S, k: nat, g: Gid)
    requires Enabled(s, OpFire(k, g)) && (s.timers[k].CloseChan? ==> s.timers[k].c in s.chans)
    ensures Frame(s, OpFire(k, g), Fire(s, k, g))
  {
    hide Close;
    var s1 := WithoutTimer(s, k, false);
    match s.timers[k]
    case CloseChan(c) => CloseChannels(s1, c);
    case Start(periodic) =>
      if periodic { assert SetTimeout(s1, Start(true)).timers[..|s1.timers|] == s1.timers; }
  }

  lemma QuietFrame(s: S, st: Step, t: S)
    requires st.OpSend? || st.OpRecv? || st.OpSelect?
    requires SameChannels(s, t, {})
    ensures Frame(s, st, t)
  { }

  lemma OtherFrame(s: S, st: Step)
    requires Enabled(s, st) && Safe(s, st)
    requires st.OpGo? || st.OpMake? || st.OpStartTimer? || st.OpStopTimer? || st.OpExit? || st.OpFinish?
             || st.OpRunNext?
    ensures Frame(s, st, Do(s, st))
  { }

  lemma CloseFrame(s: S, c: Cid)
    requires Enabled(s, OpClose(c)) && c in s.chans
    ensures Frame(s, OpClose(c), Close(s, c))
  {
    hide Close;
    CloseChannels(s, c);
  }

  /** In every step. */
  lemma StepFrame(s: S, st: Step)
    requires Inv(s) && Enabled(s, st)
    ensures Frame(s, st, Do(s, st))
  {
    StepInv(s, st);
    hide Inv, Send, Recv, Select, Sleep, Close, Fire, Wakeable, CommsOk, Frame, SameChannels, AnyReady;
    var t := Do(s, st);
    match st
    case OpSend(c, v) => SendChannels(s, c, v); QuietFrame(s, st, t);
    case OpRecv(c) => RecvChannels(s, c, true, 0); QuietFrame(s, st, t);
    case OpSelect(comms, pick) => SelectChannels(s, comms, pick); QuietFrame(s, st, t);
    case OpSleep(c) => SleepFrame(s, c);
    case OpClose(c) => CloseFrame(s, c);
    case OpFire(k, g) => FireFrame(s, k, g);
    case _ => OtherFrame(s, st);
  }

  // ----- sleepers -----

  /** Each sleeper has a callback outstanding that will wake it. */
  ghost predicate SleepersKept(s: S) {
    forall c | c in s.chans && s.chans[c].timer :: s.chans[c].closed <==> CloseChan(c) !in s.timers
  }

  lemma WithoutIn<T>(was: seq<T>, now: seq<T>, k: nat)
    requires Without(was, now, k)
    ensures forall x | x in was && x != was[k] :: x in now
    ensures forall x | x in now :: x in was
  {
    forall x | x in was && x != was[k] ensures x in now {
      var j :| 0 <= j < |was| && was[j] == x;
      assert now[if j < k then j else j - 1] == x;
    }
  }

  /** The callbacks outstanding after a step. */
  lemma StepTimers(s: S, st: Step, t: S, c: Cid)
    requires TimersOk(s) && Enabled(s, st) && TimersKept(s, st, t)
    ensures CloseChan(c) in t.timers
            <==> st == OpSleep(c) || (CloseChan(c) in s.timers && !(st.OpFire? && s.timers[st.k] == CloseChan(c)))
  {
    if st.OpStopTimer? || st.OpFire? {
      var now := if st.OpFire? && s.timers[st.k] == Start(true) then t.timers[..|t.timers| - 1] else t.timers;
      WithoutIn(s.timers, now, st.k);
      assert CloseChan(c) in t.timers <==> CloseChan(c) in now;
    }
  }

  lemma StepSleepers(s: S, st: Step)
    requires Inv(s) && Enabled(s, st) && SleepersKept(s)
    ensures SleepersKept(Do(s, st))
  {
    StepFrame(s, st);
    var t := Do(s, st);
    hide Do, TimersKept, QueueKept, GoroutinesMade, RunQueue, QueuesMatch, ChansOk, Counts, ClosedEmpty;
    forall c | c in t.chans && t.chans[c].timer ensures t.chans[c].closed <==> CloseChan(c) !in t.timers {
      StepTimers(s, st, t, c);
    }
  }

  lemma {:induction false} SleepersFrom(s: S, steps: seq<Step>, t: S)
    requires Inv(s) && SleepersKept(s) && Run(s, steps, t)
    ensures SleepersKept(t)
    decreases |steps|
  {
    hide SleepersKept, Inv;
    if steps != [] {
      StepInv(s, steps[0]);
      StepSleepers(s, steps[0]);
      SleepersFrom(Do(s, steps[0]), steps[1..], t);
    }
  }

  // ----- the order in which $close wakes -----

  /** The goroutines of a queue, each where its first entry stands. */
  function Waiters(q: seq<Entry>): (w: seq<Gid>)
    ensures forall e | e in q :: e.g in w
  {
    if q == [] then []
    else
      var w, g := Waiters(q[..|q| - 1]), q[|q| - 1].g;
      if g in w then w else w + [g]
  }

  lemma {:induction false} DropSnoc(q: seq<Entry>, e: Entry, g: Gid)
    ensures Drop(q + [e], g) == Drop(q, g) + if e.g == g then [] else [e]
  {
    if q != [] {
      assert (q + [e])[1..] == q[1..] + [e];
      DropSnoc(q[1..], e, g);
    }
  }

  lemma WaitersSnoc(q: seq<Entry>, e: Entry)
    ensures Waiters(q + [e]) == if e.g in Waiters(q) then Waiters(q) else Waiters(q) + [e.g]
  {
    assert (q + [e])[..|q|] == q;
  }

  lemma {:induction false} WaitersHead(q: seq<Entry>)
    requires q != []
    ensures Waiters(q) == [q[0].g] + Waiters(Drop(q, q[0].g))
    decreases |q|
  {
    hide Waiters, Drop;
    var r, e, g := q[..|q| - 1], q[|q| - 1], q[0].g;
    assert q == r + [e];
    DropSnoc(r, e, g);
    WaitersSnoc(r, e);
    if r == [] {
      WaitersNone();
    } else {
      WaitersHead(r);
      WaitersSnoc(Drop(r, g), e);
      assert Drop(r, g) + [] == Drop(r, g);
    }
  }

  lemma WaitersNone()
    ensures Waiters([]) == [] && forall g :: Drop([], g) == []
  { }

  lemma WakeQueue(s: S, g: Gid, r: Result, c: Cid)
    requires g in s.gors && c in s.chans
    ensures var t := Wake(s, g, r);
            && t.scheduled == s.scheduled + [g] && c in t.chans && t.gors.Keys == s.gors.Keys
            && t.chans[c].sendQ == Drop(s.chans[c].sendQ, g) && t.chans[c].recvQ == Drop(s.chans[c].recvQ, g)
  { }

  lemma {:induction false} SendersInOrder(s: S, c: Cid)
    requires c in s.chans && forall e | e in s.chans[c].sendQ :: e.g in s.gors
    ensures CloseSenders(s, c).scheduled == s.scheduled + Waiters(s.chans[c].sendQ)
    ensures s.chans[c].recvQ == [] ==> CloseSenders(s, c).chans[c].recvQ == []
    decreases |s.chans[c].sendQ|
  {
    hide Waiters, Drop, Wake;
    WaitersNone();
    var q := s.chans[c].sendQ;
    if q != [] {
      var r := SendResult(s.gors[q[0].g].plain, q[0].i, true);
      WakeQueue(s, q[0].g, r, c);
      WaitersHead(q);
      DropShorter(q, q[0].g);
      SendersInOrder(Wake(s, q[0].g, r), c);
      Regroup(s.scheduled, [q[0].g], Waiters(Drop(q, q[0].g)));
    }
  }

  lemma {:induction false} ReceiversInOrder(s: S, c: Cid)
    requires c in s.chans && forall e | e in s.chans[c].recvQ :: e.g in s.gors
    ensures CloseReceivers(s, c).scheduled == s.scheduled + Waiters(s.chans[c].recvQ)
    decreases |s.chans[c].recvQ|
  {
    hide Waiters, Drop, Wake;
    WaitersNone();
    var q := s.chans[c].recvQ;
    if q != [] {
      var r := RecvResult(s.gors[q[0].g].plain, q[0].i, ZERO, false);
      WakeQueue(s, q[0].g, r, c);
      WaitersHead(q);
      DropShorter(q, q[0].g);
      ReceiversInOrder(Wake(s, q[0].g, r), c);
      Regroup(s.scheduled, [q[0].g], Waiters(Drop(q, q[0].g)));
    }
  }

  /** Goroutines that wait for a channel run in the order in which they began to wait when it is closed. */
  lemma CloseWakesInOrder(s: S, c: Cid)
    requires Inv(s) && c in s.chans && OnlyPlainSenders(s, c)
    ensures Close(s, c).scheduled == s.scheduled + Waiters(s.chans[c].sendQ) + Waiters(s.chans[c].recvQ)
  {
    var s1 := WithChan(s, c, s.chans[c].(closed := true));
    assert forall e | e in s.chans[c].sendQ :: Sends(s, e, c) && e.g in s.gors;
    assert forall e | e in s.chans[c].recvQ :: Receives(s, e, c) && e.g in s.gors;
    InvChannel(s, c);
    if s.chans[c].sendQ != [] {
      assert s.chans[c].sendQ[0] in s.chans[c].sendQ;
      assert forall e :: e !in s.chans[c].recvQ;
    }
    hide Inv, Waiters;
    SendersInOrder(s1, c);
    if s.chans[c].sendQ == [] {
      assert CloseSenders(s1, c) == s1;
      WaitersNone();
    }
    ReceiversInOrder(CloseSenders(s1, c), c);
  }

  // ----- a sleeper is woken -----

  lemma PrivateChannel(s: S, k: nat, c: Cid)
    requires Inv(s) && k < |s.timers| && s.timers[k] == CloseChan(c)
    ensures c in s.chans && s.chans[c].sendQ == []
  {
    assert ChanOk(s.chans[c]);
  }

  lemma FiringWakes(s: S, k: nat, h: Gid, c: Cid)
    requires Inv(s) && k < |s.timers| && s.timers[k] == CloseChan(c) && Enabled(s, OpFire(k, h))
    ensures c in s.chans && Do(s, OpFire(k, h)).scheduled == s.scheduled + Waiters(s.chans[c].recvQ)
  {
    hide Inv, Close, Waiters, Enabled;
    PrivateChannel(s, k, c);
    StepInv(s, OpFire(k, h));
    WithoutTimerInv(s, k, false);
    CloseWakesInOrder(WithoutTimer(s, k, false), c);
    WaitersNone();
    assert s.scheduled + [] == s.scheduled;
  }

  /** In every reachable state the private channel of a sleeper is open exactly as long as the callback that closes it
      is outstanding, and firing that callback makes whoever waits on it runnable: no sleeper is forgotten. */
  lemma SleepersAlways(steps: seq<Step>, t: S, c: Cid)
    requires Run(Initial(), steps, t) && c in t.chans && t.chans[c].timer
    ensures t.chans[c].closed <==> CloseChan(c) !in t.timers
    ensures t.chans[c].recvQ != [] ==> CloseChan(c) in t.timers
    ensures forall k: nat, h: Gid, e |
              Enabled(t, OpFire(k, h)) && t.timers[k] == CloseChan(c) && e in t.chans[c].recvQ ::
              e.g in Do(t, OpFire(k, h)).scheduled
  {
    hide Run, Inv, Waiters;
    InitialInv();
    SleepersFrom(Initial(), steps, t);
    RunInv(Initial(), steps, t);
    InvChannel(t, c);
    forall k: nat, h: Gid, e | Enabled(t, OpFire(k, h)) && t.timers[k] == CloseChan(c) && e in t.chans[c].recvQ
      ensures e.g in Do(t, OpFire(k, h)).scheduled
    {
      FiringWakes(t, k, h, c);
    }
  }
}
