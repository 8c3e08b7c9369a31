/** What a goroutine is told when it goes on, and what it waits for when it does not. */
module SchedulerResults {
  import opened Scheduler
  import opened SchedulerInvariant
  import opened SchedulerSafety

  /** `[v, ok]` from $recv, or `[i, [v, ok]]` from $select. */
  predicate ToldReceived(r: Result, plain: bool, i: nat, v: Val, ok: bool) {
    if plain then r == Received(v, ok) else r == SelectedRecv(i, v, ok)
  }

  /** A send by itself returns nothing, and panics when the channel was closed; $select returns `[i]`. */
  predicate ToldSent(r: Result, plain: bool, i: nat, closed: bool) {
    if plain then r == SendDone(closed) else r == Selected(i)
  }

  /** A closed channel with nothing left in it. */
  predicate Drained(s: S, c: Cid) {
    c in s.chans && s.chans[c].closed && s.chans[c].buf == [] && s.chans[c].sendQ == []
  }

  /** The next value of c is received, or c is closed and drained. */
  ghost predicate ToldOf(s: S, t: S, c: Option<Cid>, r: Result, plain: bool, i: nat) {
    && c.Some? && c.value in s.chans && c.value in t.chans
    && ((exists v :: ToldReceived(r, plain, i, v, true)
                     && t.chans[c.value].received == s.chans[c.value].received + [v])
        || (ToldReceived(r, plain, i, ZERO, false) && Drained(s, c.value)
            && t.chans[c.value].received == s.chans[c.value].received))
  }

  /** The value that a select gives away enters the history of its channel. */
  predicate Gives(s: S, t: S, c: Option<Cid>, v: Val) {
    c.Some? && c.value in s.chans && c.value in t.chans && t.chans[c.value].sent == s.chans[c.value].sent + [v]
  }

  /** What $select returns: the number of a case that could go on, with what it received, or, when none could, the
      number of a default case. */
  ghost predicate ToldSelected(s: S, comms: seq<Comm>, pick: nat, t: S, r: Result) {
    if AnyReady(s, comms) then
      && pick < |comms| && Ready(s, comms[pick])
      && match comms[pick]
         case RecvCase(c) => ToldOf(s, t, c, r, false, pick)
         case SendCase(c, v) => r == Selected(pick) && Gives(s, t, c, v)
         case Default => false
    else
      r.Selected? && r.i < |comms| && comms[r.i] == Default && t.chans == s.chans
  }

  /** The running goroutine goes on and is told what its operation came to, or it sleeps and waits for just that. */
  ghost predicate Told(s: S, st: Step, t: S) {
    s.cur.Some? && s.cur.value in s.gors ==>
      && s.cur.value in t.gors
      && var g, was := t.gors[s.cur.value], s.gors[s.cur.value];
         match st
         case OpSend(c, v) => if g.asleep then Waits(g, [SendCase(c, v)], true) else g == was && Gives(s, t, c, v)
         case OpRecv(c) =>
           if g.asleep then Waits(g, [RecvCase(c)], true)
           else g == was.(result := g.result) && ToldOf(s, t, c, g.result, true, 0)
         case OpSelect(comms, pick) =>
           if g.asleep then Waits(g, comms, false) && !AnyReady(s, comms) && !HasDefault(comms)
           else g == was.(result := g.result) && ToldSelected(s, comms, pick, t, g.result)
         case OpSleep(c) => Waits(g, [RecvCase(Some(c))], true)
         case OpExit => g == was.(exit := true)
         case OpFinish(_) => g == was.(asleep := was.asleep || was.exit)
         case _ => g == was
  }

  predicate Waits(g: Gor, cases: seq<Comm>, plain: bool) {
    g == Gor(true, false, plain, cases, Pending)
  }

  lemma SendTells(s: S, c: Option<Cid>, v: Val)
    requires Running(s) && (c.Some? ==> c.value in s.chans) && Wakeable(s, c)
    requires c.Some? ==> forall e | e in s.chans[c.value].recvQ :: e.g != s.cur.value
    ensures var t := Send(s, c, v);
            && s.cur.value in t.gors
            && var g, was := t.gors[s.cur.value], s.gors[s.cur.value];
               if g.asleep then Waits(g, [SendCase(c, v)], true) else g == was && Gives(s, t, c, v)
  {
    hide Push, Drop;
  }

  lemma RecvTells(s: S, c: Option<Cid>, plain: bool, i: nat)
    requires Running(s) && (c.Some? ==> c.value in s.chans) && Wakeable(s, c)
    requires c.Some? ==> forall e | e in s.chans[c.value].sendQ :: e.g != s.cur.value
    ensures var t := Recv(s, c, plain, i);
            && s.cur.value in t.gors
            && var g, was := t.gors[s.cur.value], s.gors[s.cur.value];
               if g.asleep then Waits(g, [RecvCase(c)], true)
               else g == was.(result := g.result) && ToldOf(s, t, c, g.result, plain, i)
  {
    hide Push, Drop;
    if c.Some? && s.chans[c.value].sendQ == [] {
      assert Refill(s, c.value) == s;
      if s.chans[c.value].buf != [] {
        var u := s.chans[c.value].buf[0];
        assert ToldReceived(RecvResult(plain, i, u, true), plain, i, u, true);
      }
    } else if c.Some? {
      RecvIsPassed(s, c.value, plain, i);
      var e := s.chans[c.value].sendQ[0];
      var u := (s.chans[c.value].buf + [s.gors[e.g].cases[e.i].v])[0];
      assert ToldReceived(RecvResult(plain, i, u, true), plain, i, u, true);
    }
  }

  lemma SelectTells(s: S, comms: seq<Comm>, pick: nat)
    requires Inv(s) && Enabled(s, OpSelect(comms, pick)) && CommsOk(s, comms)
    ensures Told(s, OpSelect(comms, pick), Select(s, comms, pick))
  {
    if AnyReady(s, comms) {
      SelectInv(s, comms, pick);
      match comms[pick]
      case RecvCase(c) =>
        RecvInv(s, c, false, pick);
        RecvTells(s, c, false, pick);
      case SendCase(c, v) =>
        NotWaiting(s);
        SendInv(s, c, v);
        SendTells(s, c, v);
    }
  }

  /** The running goroutine has no entry in a queue. */
  lemma NotWaiting(s: S)
    requires Inv(s) && Running(s)
    ensures forall c, e | c in s.chans && e in s.chans[c].recvQ + s.chans[c].sendQ :: e.g != s.cur.value
  {
    hide RunQueue, ChansOk, Counts, TimersOk, ClosedEmpty;
  }

  lemma SleepTells(s: S, c: Cid)
    requires Running(s) && c !in s.chans
    ensures Told(s, OpSleep(c), Sleep(s, c))
  {
    hide Push;
    var s1 := SetTimeout(MakeChan(s, c, 0, true), CloseChan(c));
    assert Refill(s1, c) == s1;
  }

  /** Waking others leaves the running goroutine as it is. */
  lemma {:induction false} CloseSendersTells(s: S, c: Cid, g: Gid)
    requires Core(s) && CurAwake(s) && c in s.chans && g in s.gors && !Parked(s, g)
    ensures g in CloseSenders(s, c).gors && CloseSenders(s, c).gors[g] == s.gors[g]
    ensures !Parked(CloseSenders(s, c), g)
    decreases |s.chans[c].sendQ|
  {
    var q := s.chans[c].sendQ;
    if q != [] {
      hide Push;
      assert Sends(s, q[0], c);
      var r := SendResult(s.gors[q[0].g].plain, q[0].i, true);
      assert q[0] in s.chans[c].sendQ + s.chans[c].recvQ;
      WakeHead(s, c, q[0], r);
      DropShorter(q, q[0].g);
      CloseSendersTells(Wake(s, q[0].g, r), c, g);
    }
  }

  lemma {:induction false} CloseReceiversTells(s: S, c: Cid, g: Gid)
    requires Core(s) && CurAwake(s) && c in s.chans && g in s.gors && !Parked(s, g)
    ensures g in CloseReceivers(s, c).gors && CloseReceivers(s, c).gors[g] == s.gors[g]
    decreases |s.chans[c].recvQ|
  {
    var q := s.chans[c].recvQ;
    if q != [] {
      hide Push;
      assert Receives(s, q[0], c);
      var r := RecvResult(s.gors[q[0].g].plain, q[0].i, ZERO, false);
      assert q[0] in s.chans[c].sendQ + s.chans[c].recvQ;
      WakeHead(s, c, q[0], r);
      DropShorter(q, q[0].g);
      CloseReceiversTells(Wake(s, q[0].g, r), c, g);
    }
  }

  lemma CloseTells(s: S, c: Cid)
    requires Inv(s) && Running(s) && c in s.chans
    requires forall k | 0 <= k < |s.timers| :: s.timers[k] != CloseChan(c)
    ensures s.cur.value in Close(s, c).gors && Close(s, c).gors[s.cur.value] == s.gors[s.cur.value]
  {
    InvParts(s);
    ClosedCore(s, c);
    var s1 := WithChan(s, c, s.chans[c].(closed := true));
    hide Core, ClosedEmpty;
    CloseSendersInv(s1, c);
    CloseSendersTells(s1, c, s.cur.value);
    CloseReceiversTells(CloseSenders(s1, c), c, s.cur.value);
  }

  lemma OtherTells(s: S, st: Step)
    requires Inv(s) && Enabled(s, st)
    requires st.OpGo? || st.OpMake? || st.OpStartTimer? || st.OpStopTimer? || st.OpExit? || st.OpFinish?
             || st.OpRunNext?
             || st.OpFire?
    ensures Told(s, st, Do(s, st))
  {
    hide Inv, Close;
  }

  /** In every step. */
  lemma StepTells(s: S, st: Step)
    requires Inv(s) && Enabled(s, st)
    ensures Told(s, st, Do(s, st))
  {
    StepInv(s, st);
    hide Inv, Send, Recv, Select, Close, Fire, Sleep;
    match st
    case OpSend(c, v) => NotWaiting(s); SendTells(s, c, v);
    case OpRecv(c) => RecvTells(s, c, true, 0);
    case OpSelect(comms, pick) => SelectTells(s, comms, pick);
    case OpSleep(c) => SleepTells(s, c);
    case OpClose(c) => NoTimerCloses(s, c); CloseTells(s, c);
    case _ => OtherTells(s, st);
  }

  /** No callback closes a channel that a program may name. */
  lemma NoTimerCloses(s: S, c: Cid)
    requires Inv(s) && c in s.chans && !s.chans[c].timer
    ensures forall k | 0 <= k < |s.timers| :: s.timers[k] != CloseChan(c)
  { }
}
