/** The goroutine runtime as the program keeps it: fields that its functions update in place. */
module GoroutineRuntime {
  import opened Scheduler
  import opened SchedulerInvariant
  import opened ClosingSelects
  import R = SchedulerResults

  // ----- removeFromQueues -----

  /** Without the entries of g for the cases below n. */
  ghost function DropBelow(q: seq<Entry>, g: Gid, n: nat): (r: seq<Entry>)
    ensures forall e :: e in r <==> e in q && !(e.g == g && e.i < n)
  {
    if q == [] then [] else (if q[0].g == g && q[0].i < n then [] else [q[0]]) + DropBelow(q[1..], g, n)
  }

  lemma {:induction false} DropBelowSame(q: seq<Entry>, g: Gid, n: nat)
    requires Entry(g, n) !in q
    ensures DropBelow(q, g, n + 1) == DropBelow(q, g, n)
  {
    if q != [] {
      assert q[0] in q;
      assert q[0] == Entry(q[0].g, q[0].i);
      DropBelowSame(q[1..], g, n);
    }
  }

  lemma {:induction false} DropBelowZero(q: seq<Entry>, g: Gid)
    ensures DropBelow(q, g, 0) == q
  {
    if q != [] { DropBelowZero(q[1..], g); }
  }

  lemma {:induction false} DropBelowAll(q: seq<Entry>, g: Gid, n: nat)
    requires forall e | e in q && e.g == g :: e.i < n
    ensures DropBelow(q, g, n) == Drop(q, g)
  {
    if q != [] {
      assert q[0] in q;
      DropBelowAll(q[1..], g, n);
    }
  }

  /** Cutting out the entry for case n, where indexOf finds it. */
  lemma {:induction false} DropBelowSplice(q: seq<Entry>, g: Gid, n: nat, k: nat)
    requires NoDup(q)
    requires k < |DropBelow(q, g, n)| && DropBelow(q, g, n)[k] == Entry(g, n)
    ensures DropBelow(q, g, n + 1) == DropBelow(q, g, n)[..k] + DropBelow(q, g, n)[k + 1..]
  {
    hide DropBelow, NoDup;
    assert q != [] by { DropBelowCons(q, g, n); }
    var r := DropBelow(q, g, n);
    var tail := DropBelow(q[1..], g, n);
    DropBelowCons(q, g, n);
    DropBelowCons(q, g, n + 1);
    NoDupTail(q);
    if q[0] == Entry(g, n) {
      DropBelowSame(q[1..], g, n);
      HeadOnly(q[0], tail, k);
      assert r[..0] + r[1..] == tail;
    } else if q[0].g == g && q[0].i < n {
      assert [] + tail == tail;
      DropBelowSplice(q[1..], g, n, k);
      assert [] + DropBelow(q[1..], g, n + 1) == DropBelow(q[1..], g, n + 1);
    } else {
      assert q[0] != Entry(g, n) && r[0] == q[0];
      DropBelowSplice(q[1..], g, n, k - 1);
      WithoutOne(q[0], tail, k);
    }
  }

  lemma WithoutOne<T>(x: T, tail: seq<T>, k: nat)
    requires 0 < k <= |tail|
    ensures ([x] + tail)[..k] + ([x] + tail)[k + 1..] == [x] + (tail[..k - 1] + tail[k..])
  { }

  lemma HeadOnly<T>(x: T, tail: seq<T>, k: nat)
    requires x !in tail && k <= |tail| && ([x] + tail)[k] == x
    ensures k == 0
  { }

  lemma DropBelowCons(q: seq<Entry>, g: Gid, n: nat)
    ensures q != [] ==>
              DropBelow(q, g, n) == (if q[0].g == g && q[0].i < n then [] else [q[0]]) + DropBelow(q[1..], g, n)
    ensures q == [] ==> DropBelow(q, g, n) == []
  { }

  method IndexOf(queue: seq<Entry>, e: Entry) returns (index: int)
    ensures index == -1 ==> e !in queue
    ensures index != -1 ==> 0 <= index < |queue| && queue[index] == e
  {
    index := 0;
    while index < |queue|
      invariant 0 <= index <= |queue| && e !in queue[..index]
    {
      if queue[index] == e { return; }
      index := index + 1;
    }
    return -1;
  }

  ghost predicate Spliced(q: seq<Entry>, r: seq<Entry>, e: Entry) {
    if e !in q then r == q else exists k :: 0 <= k < |q| && q[k] == e && r == q[..k] + q[k + 1..]
  }

  method Splice(queue: seq<Entry>, e: Entry) returns (r: seq<Entry>)
    ensures Spliced(queue, r, e)
  {
    var index := IndexOf(queue, e);
    if index == -1 { return queue; }
    return queue[..index] + queue[index + 1..];
  }

  // ----- the runtime -----

  /** The queue entries of goroutine g are cases of g, on the right queue of the right channel. */
  ghost predicate EntriesAreCases(chans: map<Cid, Chan>, g: Gid, cases: seq<Comm>) {
    forall c | c in chans ::
      && (forall e | e in chans[c].sendQ && e.g == g ::
            e.i < |cases| && cases[e.i].SendCase? && cases[e.i].c == Some(c))
      && (forall e | e in chans[c].recvQ && e.g == g ::
            e.i < |cases| && cases[e.i].RecvCase? && cases[e.i].c == Some(c))
      && NoDup(chans[c].sendQ) && NoDup(chans[c].recvQ)
  }

  /** The channels with the entries of g for the cases below n gone. */
  ghost predicate Dropped(was: map<Cid, Chan>, now: map<Cid, Chan>, g: Gid, n: nat) {
    && now.Keys == was.Keys
    && (forall c | c in was :: now[c] == was[c].(sendQ := DropBelow(was[c].sendQ, g, n),
                                                 recvQ := DropBelow(was[c].recvQ, g, n)))
  }

  class Runtime {
    var goroutines: map<Gid, Gor>
    var chans: map<Cid, Chan>
    var curGoroutine: Option<Gid>
    var scheduled: seq<Gid>
    var totalGoroutines: int
    var awakeGoroutines: int
    var timers: seq<Timer>
    var cancelled: nat
    var reported: bool

    ghost function State(): S
      reads this
    {
      S(goroutines, chans, curGoroutine, scheduled, totalGoroutines, awakeGoroutines, timers, cancelled, reported)
    }

    /** A program in which main has been started. */
    constructor ()
      ensures State() == Initial()
    {
      goroutines, chans := map[0 := Gor(false, false, true, [], Pending)], map[];
      curGoroutine, scheduled := None, [0];
      totalGoroutines, awakeGoroutines := 1, 1;
      timers, cancelled, reported := [], 0, false;
    }

    method Schedule(g: Gid)
      requires g in goroutines
      modifies this`goroutines, this`awakeGoroutines, this`scheduled
      ensures goroutines == old(goroutines)[g := old(goroutines)[g].(asleep := false)]
      ensures awakeGoroutines == old(awakeGoroutines) + (if old(goroutines)[g].asleep then 1 else 0)
      ensures scheduled == old(scheduled) + [g]
    {
      if goroutines[g].asleep {
        goroutines := goroutines[g := goroutines[g].(asleep := false)];
        awakeGoroutines := awakeGoroutines + 1;
      }
      scheduled := scheduled + [g];
    }

    /** The `queue.indexOf` and `queue.splice` of one entry. */
    method RemoveEntry(comm: Comm, e: Entry)
      modifies this`chans
      ensures OneSpliced(old(chans), chans, comm, e)
    {
      match comm
      case Default =>
      case RecvCase(c) =>
        if c.Some? && c.value in chans {
          var q := Splice(chans[c.value].recvQ, e);
          chans := chans[c.value := chans[c.value].(recvQ := q)];
        }
      case SendCase(c, _) =>
        if c.Some? && c.value in chans {
          var q := Splice(chans[c.value].sendQ, e);
          chans := chans[c.value := chans[c.value].(sendQ := q)];
        }
    }

    method RemoveFromQueues(g: Gid)
      requires g in goroutines && EntriesAreCases(chans, g, goroutines[g].cases)
      modifies this`chans
      ensures chans == DropAll(old(chans), g)
    {
      hide OneSpliced, DropAll, Dropped, EntriesAreCases;
      var cases := goroutines[g].cases;
      var i := 0;
      DroppedNone(chans, g);
      while i < |cases|
        invariant 0 <= i <= |cases|
        invariant Dropped(old(chans), chans, g, i)
      {
        ghost var before := chans;
        RemoveEntry(cases[i], Entry(g, i));
        DroppedOne(old(chans), before, chans, g, cases, i);
        i := i + 1;
      }
      DroppedEvery(old(chans), chans, g, cases);
    }

    /** An entry's closure: the result is stored, a select's other entries leave their queues, and the
        goroutine is scheduled. */
    method CallEntry(e: Entry, r: Result)
      requires e.g in goroutines && goroutines[e.g].asleep && EntriesAreCases(chans, e.g, goroutines[e.g].cases)
      requires goroutines[e.g].plain ==> NoEntries(chans, e.g)
      modifies this`goroutines, this`chans, this`awakeGoroutines, this`scheduled
      ensures State() == Wake(old(State()), e.g, r)
    {
      hide EntriesAreCases, DropAll;
      var plain := goroutines[e.g].plain;
      goroutines := goroutines[e.g := goroutines[e.g].(result := r)];
      if plain {
        NothingToDrop(chans, e.g);
      } else {
        RemoveFromQueues(e.g);
      }
      Schedule(e.g);
    }

    /** `$recvQueue.shift()` and the call of the entry. */
    method WakeReceiver(c: Cid, v: Val, ok: bool)
      requires Core(State()) && CurAwake(State()) && c in chans && chans[c].recvQ != []
      modifies this`goroutines, this`chans, this`awakeGoroutines, this`scheduled
      ensures var e := old(chans[c].recvQ[0]);
              && e.g in old(goroutines)
              && State() == Wake(old(State()), e.g, RecvResult(old(goroutines)[e.g].plain, e.i, v, ok))
    {
      var e := chans[c].recvQ[0];
      ReceiverShifted(State(), c);
      hide Core, CurAwake, EntriesAreCases, NoEntries, DropAll;
      chans := chans[c := chans[c].(recvQ := chans[c].recvQ[1..])];
      CallEntry(e, RecvResult(goroutines[e.g].plain, e.i, v, ok));
    }

    /** `$sendQueue.shift()` and the call of the entry, which returns the value to send. */
    method WakeSender(c: Cid, closed: bool) returns (v: Val)
      requires Core(State()) && CurAwake(State()) && c in chans && chans[c].sendQ != []
      modifies this`goroutines, this`chans, this`awakeGoroutines, this`scheduled
      ensures var e := old(chans[c].sendQ[0]);
              && e.g in old(goroutines) && e.i < |old(goroutines)[e.g].cases|
              && old(goroutines)[e.g].cases[e.i].SendCase?
              && v == old(goroutines)[e.g].cases[e.i].v
              && State() == Wake(old(State()), e.g, SendResult(old(goroutines)[e.g].plain, e.i, closed))
    {
      var e := chans[c].sendQ[0];
      SenderShifted(State(), c);
      hide Core, CurAwake, EntriesAreCases, NoEntries, DropAll;
      chans := chans[c := chans[c].(sendQ := chans[c].sendQ[1..])];
      v := goroutines[e.g].cases[e.i].v;
      CallEntry(e, SendResult(goroutines[e.g].plain, e.i, closed));
    }

    // ----- goroutines -----

    method Go(g: Gid)
      requires g !in goroutines
      modifies this`goroutines, this`scheduled, this`totalGoroutines, this`awakeGoroutines
      ensures State() == NewGoroutine(old(State()), g)
    {
      totalGoroutines := totalGoroutines + 1;
      awakeGoroutines := awakeGoroutines + 1;
      goroutines := goroutines[g := Gor(false, false, true, [], Pending)];
      Schedule(g);
    }

    /** One round of the $runScheduled loop, up to the call of the goroutine. */
    method RunScheduled() returns (more: bool)
      requires curGoroutine == None
      modifies this`curGoroutine, this`scheduled
      ensures more <==> old(scheduled) != []
      ensures State() == if more then RunNext(old(State())) else old(State())
    {
      more := scheduled != [];
      if more {
        curGoroutine := Some(scheduled[0]);
        scheduled := scheduled[1..];
      }
    }

    /** The finally block of $goroutine. */
    method LeaveGoroutine(checking: bool)
      requires curGoroutine.Some? && curGoroutine.value in goroutines
      modifies this`curGoroutine, this`goroutines, this`totalGoroutines, this`awakeGoroutines, this`reported
      ensures State() == Finish(old(State()), checking)
    {
      var g := curGoroutine.value;
      curGoroutine := None;
      if goroutines[g].exit {
        totalGoroutines := totalGoroutines - 1;
        goroutines := goroutines[g := goroutines[g].(asleep := true)];
      }
      if goroutines[g].asleep {
        awakeGoroutines := awakeGoroutines - 1;
        if checking && awakeGoroutines == 0 { reported := true; }
      }
    }

    method StartTimeout(t: Timer)
      modifies this`awakeGoroutines, this`timers
      ensures State() == SetTimeout(old(State()), t)
    {
      awakeGoroutines := awakeGoroutines + 1;
      timers := timers + [t];
    }

    /** $block, with the cases the goroutine now waits for. */
    method Block(cases: seq<Comm>, plain: bool)
      requires Running(State())
      modifies this`goroutines
      ensures goroutines == old(goroutines)[old(curGoroutine).value := Gor(true, false, plain, cases, Pending)]
    {
      goroutines := goroutines[curGoroutine.value := Gor(true, false, plain, cases, Pending)];
    }

    // ----- channels -----

    /** $send; a panic leaves everything as it was. */
    method Send(c: Option<Cid>, v: Val) returns (panics: bool)
      requires Inv(State()) && Running(State()) && Usable(State(), c)
      modifies this
      ensures panics <==> !OpenForSend(old(State()), c)
      ensures panics ==> State() == old(State())
      ensures !panics ==> Wakeable(old(State()), c) && State() == Scheduler.Send(old(State()), c, v)
      ensures Inv(State())
    {
      if OpenForSend(State(), c) { SendInv(State(), c, v); }
      WakeableQueues(State(), c);
      hide Inv, Wakeable, DropAll;
      PushSingle(chans, curGoroutine.value, SendCase(c, v));
      if c == None {
        Block([SendCase(None, v)], true);
        return false;
      }
      if chans[c.value].closed { return true; }
      var ch := chans[c.value];
      if ch.recvQ != [] {
        InvParts(State());
        WakeReceiver(c.value, v, true);
        assert c.value in chans;
        chans := chans[c.value := chans[c.value].(sent := ch.sent + [v], received := ch.received + [v])];
        return false;
      }
      if |ch.buf| < ch.cap {
        chans := chans[c.value := ch.(buf := ch.buf + [v], sent := ch.sent + [v])];
        return false;
      }
      chans := chans[c.value := ch.(sendQ := ch.sendQ + [Entry(curGoroutine.value, 0)])];
      Block([SendCase(c, v)], true);
      return false;
    }

    /** $recv, by itself or for case i of a select. */
    method Recv(c: Option<Cid>, plain: bool, i: nat)
      requires Inv(State()) && Running(State()) && (c.Some? ==> c.value in chans)
      modifies this
      ensures var s := old(State());
              && Wakeable(s, c) && (c.Some? ==> forall e | e in s.chans[c.value].sendQ :: e.g != s.cur.value)
              && State() == Scheduler.Recv(s, c, plain, i)
      ensures Inv(State())
    {
      hide Inv, Wakeable, Refill, Push, DropAll;
      RecvInv(State(), c, plain, i);
      PushSingle(chans, curGoroutine.value, RecvCase(c));
      if c == None {
        Block([RecvCase(None)], true);
        return;
      }
      var g := curGoroutine.value;
      RefillKeeps(State(), c.value);
      TakeFromSender(c.value);
      var ch := chans[c.value];
      PushSingle(chans, g, RecvCase(c));
      if ch.buf != [] {
        chans := chans[c.value := ch.(buf := ch.buf[1..], received := ch.received + [ch.buf[0]])];
        goroutines := goroutines[g := goroutines[g].(result := RecvResult(plain, i, ch.buf[0], true))];
      } else if ch.closed {
        goroutines := goroutines[g := goroutines[g].(result := RecvResult(plain, i, ZERO, false))];
      } else {
        chans := chans[c.value := ch.(recvQ := ch.recvQ + [Entry(g, 0)])];
        Block([RecvCase(c)], true);
      }
    }

    /** A parked sender's value goes into the buffer. */
    method TakeFromSender(c: Cid)
      requires Core(State()) && CurAwake(State()) && c in chans && Wakeable(State(), Some(c))
      modifies this`goroutines, this`chans, this`awakeGoroutines, this`scheduled
      ensures State() == Refill(old(State()), c)
    {
      var ch := chans[c];
      if ch.sendQ != [] {
        hide Core, DropAll;
        var v := WakeSender(c, false);
        chans := chans[c := chans[c].(buf := ch.buf + [v], sent := ch.sent + [v])];
      }
    }

    /** The first loop of $close.  The closure of a select's entry throws. */
    method WakeSenders(c: Cid) returns (panics: bool)
      requires Core(State()) && CurAwake(State()) && c in chans
      modifies this`goroutines, this`chans, this`awakeGoroutines, this`scheduled
      ensures panics <==> !OnlyPlainSenders(old(State()), c)
      ensures State() == CloseUpToSelect(old(State()), c)
      ensures !panics ==> Core(State()) && CurAwake(State())
    {
      hide Core, Wake, OnlyPlainSenders;
      while chans[c].sendQ != []
        invariant Core(State()) && CurAwake(State()) && c in chans
        invariant CloseUpToSelect(State(), c) == CloseUpToSelect(old(State()), c)
        invariant OnlyPlainSenders(State(), c) <==> OnlyPlainSenders(old(State()), c)
        decreases |chans[c].sendQ|
      {
        ghost var s := State();
        var e := chans[c].sendQ[0];
        assert e in chans[c].sendQ + chans[c].recvQ;
        WakeHeadOf(s, c, e);
        if !goroutines[e.g].plain {
          NotOnlyPlain(s, c);
          chans := chans[c := chans[c].(sendQ := chans[c].sendQ[1..])];
          return true;
        }
        WakeHead(s, c, e, SendResult(true, e.i, true));
        WakeKeepsPlain(s, c, SendResult(true, e.i, true));
        var _ := WakeSender(c, true);
      }
      NoSenders(State(), c);
      return false;
    }

    method WakeReceivers(c: Cid)
      requires Core(State()) && CurAwake(State()) && c in chans
      modifies this`goroutines, this`chans, this`awakeGoroutines, this`scheduled
      ensures State() == CloseReceivers(old(State()), c)
    {
      hide Core, DropAll;
      while chans[c].recvQ != []
        invariant Core(State()) && CurAwake(State()) && c in chans
                  && CloseReceivers(State(), c) == CloseReceivers(old(State()), c)
        decreases |chans[c].recvQ|
      {
        ghost var e := chans[c].recvQ[0];
        assert e in chans[c].sendQ + chans[c].recvQ;
        WakeHeadOf(State(), c, e);
        WakeHead(State(), c, e, RecvResult(goroutines[e.g].plain, e.i, ZERO, false));
        WakeReceiver(c, ZERO, false);
      }
    }

    /** $close: every goroutine parked on the channel is woken, the senders first, unless a select waits to send. */
    method Close(c: Cid) returns (panics: bool)
      requires Inv(State()) && CurAwake(State()) && c in chans
      requires forall k | 0 <= k < |timers| :: timers[k] != CloseChan(c)
      modifies this
      ensures panics <==> old(chans[c].closed) || !OnlyPlainSenders(old(State()), c)
      ensures State() == if old(chans[c].closed) then old(State())
                         else if panics then CloseThrows(old(State()), c) else Scheduler.Close(old(State()), c)
      ensures Inv(State()) <==> old(chans[c].closed) || !panics
    {
      if chans[c].closed { return true; }
      hide Core, Inv, CloseUpToSelect, CloseSenders, CloseReceivers, OnlyPlainSenders;
      CloseKeepsInv(State(), c);
      InvParts(State());
      ClosedCore(State(), c);
      SameSenders(State(), c);
      chans := chans[c := chans[c].(closed := true)];
      ghost var s := State();
      panics := WakeSenders(c);
      if panics { return; }
      PlainSendersAllGo(s, c);
      WakeReceivers(c);
    }

    /** The entries that a select which must wait leaves in the queues. */
    method PushEntries(comms: seq<Comm>)
      requires Running(State())
      modifies this`chans
      ensures chans == Push(old(chans), curGoroutine.value, comms, 0)
    {
      var g := curGoroutine.value;
      for i := 0 to |comms|
        invariant Push(chans, g, comms, i) == Push(old(chans), g, comms, 0)
      {
        match comms[i] {
          case SendCase(Some(c), _) =>
            if c in chans { chans := chans[c := chans[c].(sendQ := chans[c].sendQ + [Entry(g, i)])]; }
          case RecvCase(Some(c)) =>
            if c in chans { chans := chans[c := chans[c].(recvQ := chans[c].recvQ + [Entry(g, i)])]; }
          case _ =>
        }
      }
    }

    /** The first loop of $select: the ready cases, and the default case or -1. */
    method ReadyCases(comms: seq<Comm>) returns (panics: bool, ready: seq<nat>, selection: int)
      requires UsableCases(State(), comms)
      ensures panics <==> exists i :: 0 <= i < |comms| && comms[i].SendCase? && !OpenForSend(State(), comms[i].c)
      ensures !panics ==> forall i: nat :: i in ready <==> i < |comms| && Ready(State(), comms[i])
      ensures !panics ==> if HasDefault(comms) then selection == DefaultIndex(comms) else selection == -1
    {
      panics, ready, selection := false, [], -1;
      for i := 0 to |comms|
        invariant forall k | 0 <= k < i && comms[k].SendCase? :: OpenForSend(State(), comms[k].c)
        invariant forall k: nat :: k in ready <==> k < i && Ready(State(), comms[k])
        invariant if Default in comms[..i] then selection == DefaultIndex(comms[..i]) else selection == -1
      {
        assert comms[..i + 1][..i] == comms[..i];
        match comms[i] {
          case Default => selection := i;
          case RecvCase(c) =>
            if c.Some? && (chans[c.value].sendQ != [] || chans[c.value].buf != [] || chans[c.value].closed) {
              ready := ready + [i];
            }
          case SendCase(c, _) =>
            if c.Some? {
              if chans[c.value].closed { return true, ready, selection; }
              if chans[c.value].recvQ != [] || |chans[c.value].buf| < chans[c.value].cap { ready := ready + [i]; }
            }
        }
      }
      assert comms[..|comms|] == comms;
    }

    /** The selected case of a select goes on. */
    method Proceed(comm: Comm, pick: nat)
      requires Inv(State()) && Running(State()) && Ready(State(), comm) && Usable(State(), comm.c)
      requires comm.SendCase? ==> OpenForSend(State(), comm.c)
      modifies this
      ensures var s := old(State());
              && Wakeable(s, comm.c)
              && (forall e | e in s.chans[comm.c.value].sendQ :: e.g != s.cur.value)
              && State() == if comm.RecvCase? then Scheduler.Recv(s, comm.c, false, pick)
                            else SetResultOf(Scheduler.Send(s, comm.c, comm.v), s.cur.value, Selected(pick))
    {
      WakeableQueues(State(), comm.c);
      hide Inv, Wakeable, DropAll;
      var g := curGoroutine.value;
      match comm
      case RecvCase(c) => Recv(c, false, pick);
      case SendCase(c, v) =>
        var _ := Send(c, v);
        if g in goroutines { goroutines := goroutines[g := goroutines[g].(result := Selected(pick))]; }
    }

    /** $select; `random` is the number that Math.random gives. */
    method Select(comms: seq<Comm>, random: nat) returns (panics: bool, pick: nat)
      requires Inv(State()) && Running(State()) && UsableCases(State(), comms)
      modifies this
      ensures panics <==> exists i :: 0 <= i < |comms| && comms[i].SendCase? && !OpenForSend(old(State()), comms[i].c)
      ensures panics ==> State() == old(State())
      ensures !panics ==> Enabled(old(State()), OpSelect(comms, pick)) && CommsOk(old(State()), comms)
                          && State() == Scheduler.Select(old(State()), comms, pick)
                          && R.Told(old(State()), OpSelect(comms, pick), State())
      ensures Inv(State())
    {
      hide R.Told, Inv, CommsOk, Wakeable, UsableCases, AnyReady, Ready, DropAll, Scheduler.Select;
      pick := 0;
      var ready: seq<nat>, selection: int;
      panics, ready, selection := ReadyCases(comms);
      if panics { return; }
      ghost var s := State();
      SelectOk(s, comms);
      AnyReadyIs(s, comms, ready);
      if ready != [] {
        pick := ready[random % |ready|];
        assert pick in ready;
        R.SelectTells(s, comms, pick);
        SelectKeeps(s, comms, pick);
        Proceed(comms[pick], pick);
      } else {
        R.SelectTells(s, comms, pick);
        SelectKeeps(s, comms, pick);
        if selection != -1 {
          var g := curGoroutine.value;
          goroutines := goroutines[g := goroutines[g].(result := Selected(selection))];
        } else {
          PushEntries(comms);
          Block(comms, false);
        }
      }
    }

    /** The callback that $setTimeout wraps. */
    method FireTimeout(k: nat, g: Gid)
      requires Inv(State()) && Enabled(State(), OpFire(k, g))
      modifies this
      ensures old(timers)[k].CloseChan? ==> old(timers)[k].c in old(chans)
      ensures State() == Fire(old(State()), k, g) && Inv(State())
    {
      hide Inv, Fire, Scheduler.Close, NewGoroutine, WithoutTimer;
      FireInv(State(), k, g);
      WithoutTimerInv(State(), k, false);
      TimerChan(State(), k);
      FireIs(State(), k, g);
      var t := timers[k];
      TakeTimer(k);
      match t
      case CloseChan(c) =>
        var _ := Close(c);
      case Start(periodic) =>
        if periodic { StartTimeout(Start(true)); }
        Go(g);
    }

    method TakeTimer(k: nat)
      requires k < |timers|
      modifies this`awakeGoroutines, this`timers
      ensures State() == WithoutTimer(old(State()), k, false)
    {
      awakeGoroutines := awakeGoroutines - 1;
      timers := timers[..k] + timers[k + 1..];
    }
  }

  lemma FireIs(s: S, k: nat, g: Gid)
    requires Enabled(s, OpFire(k, g)) && (s.timers[k].CloseChan? ==> s.timers[k].c in s.chans)
    ensures var s1 := WithoutTimer(s, k, false);
            && s1.gors == s.gors && s1.chans == s.chans && s1.cur == s.cur
            && Fire(s, k, g) == match s.timers[k]
                                case CloseChan(c) => Scheduler.Close(s1, c)
                                case Start(periodic) => NewGoroutine(if periodic then SetTimeout(s1, Start(true))
                                                                     else s1, g)
  { }

  lemma AnyReadyIs(s: S, comms: seq<Comm>, ready: seq<nat>)
    requires forall i: nat :: i in ready <==> i < |comms| && Ready(s, comms[i])
    ensures AnyReady(s, comms) <==> ready != []
  {
    if i :| 0 <= i < |comms| && Ready(s, comms[i]) { assert i in ready; }
    if ready != [] { assert ready[0] in ready; }
  }

  lemma SelectKeeps(s: S, comms: seq<Comm>, pick: nat)
    requires Inv(s) && Enabled(s, OpSelect(comms, pick))
    ensures CommsOk(s, comms) && Inv(Scheduler.Select(s, comms, pick))
    ensures AnyReady(s, comms) ==> !comms[pick].Default? && Usable(s, comms[pick].c)
    ensures Scheduler.Select(s, comms, pick) ==
              if AnyReady(s, comms) then
                match comms[pick]
                case RecvCase(c) => Scheduler.Recv(s, c, false, pick)
                case SendCase(c, v) => SetResultOf(Scheduler.Send(s, c, v), s.cur.value, Selected(pick))
                case Default => s
              else if HasDefault(comms) then SetResult(s, Selected(DefaultIndex(comms)))
              else Park(s, comms, false)
  {
    SelectInv(s, comms, pick);
    hide Inv, Wakeable;
  }

  lemma NotOnlyPlain(s: S, c: Cid)
    requires c in s.chans && s.chans[c].sendQ != []
    requires s.chans[c].sendQ[0].g in s.gors && !s.gors[s.chans[c].sendQ[0].g].plain
    ensures !OnlyPlainSenders(s, c)
    ensures CloseUpToSelect(s, c) == WithChan(s, c, s.chans[c].(sendQ := s.chans[c].sendQ[1..]))
  { }

  lemma NoSenders(s: S, c: Cid)
    requires c in s.chans && s.chans[c].sendQ == []
    ensures OnlyPlainSenders(s, c) && CloseUpToSelect(s, c) == s
  { }

  lemma SameSenders(s: S, c: Cid)
    requires c in s.chans
    ensures OnlyPlainSenders(WithChan(s, c, s.chans[c].(closed := true)), c) <==> OnlyPlainSenders(s, c)
  { }

  lemma RefillKeeps(s: S, c: Cid)
    requires Inv(s) && Running(s) && c in s.chans && Wakeable(s, Some(c))
    requires forall e | e in s.chans[c].sendQ :: e.g != s.cur.value
    ensures Core(s) && CurAwake(s) && Running(Refill(s, c)) && Refill(s, c).cur == s.cur
  { }

  lemma TimerChan(s: S, k: nat)
    requires Inv(s) && k < |s.timers|
    ensures s.timers[k].CloseChan? ==>
              var c := s.timers[k].c;
              && c in s.chans && !s.chans[c].closed
              && OnlyPlainSenders(WithoutTimer(s, k, false), c)
  {
    if s.timers[k].CloseChan? { assert ChanOk(s.chans[s.timers[k].c]); }
  }

  /** The goroutine of an entry is parked, and waking it shortens the queue that it heads. */
  lemma WakeHeadOf(s: S, c: Cid, e: Entry)
    requires Core(s) && c in s.chans && e in s.chans[c].sendQ + s.chans[c].recvQ
    ensures Parked(s, e.g)
    ensures forall r | s.chans[c].sendQ != [] && e == s.chans[c].sendQ[0] ::
              |Wake(s, e.g, r).chans[c].sendQ| < |s.chans[c].sendQ|
    ensures forall r | s.chans[c].recvQ != [] && e == s.chans[c].recvQ[0] ::
              |Wake(s, e.g, r).chans[c].recvQ| < |s.chans[c].recvQ|
  {
    assert Sends(s, e, c) || Receives(s, e, c);
    DropShorter(s.chans[c].sendQ, e.g);
    DropShorter(s.chans[c].recvQ, e.g);
  }

  ghost predicate NoEntries(chans: map<Cid, Chan>, g: Gid) {
    forall c, e | c in chans && e in chans[c].sendQ + chans[c].recvQ :: e.g != g
  }

  lemma {:induction false} DropNothing(q: seq<Entry>, g: Gid)
    requires forall e | e in q :: e.g != g
    ensures Drop(q, g) == q
  {
    if q != [] {
      assert q[0] in q;
      DropNothing(q[1..], g);
    }
  }

  lemma NothingToDrop(chans: map<Cid, Chan>, g: Gid)
    requires NoEntries(chans, g)
    ensures DropAll(chans, g) == chans
  {
    forall c | c in chans ensures DropAll(chans, g)[c] == chans[c] {
      assert forall e | e in chans[c].sendQ :: e in chans[c].sendQ + chans[c].recvQ;
      assert forall e | e in chans[c].recvQ :: e in chans[c].sendQ + chans[c].recvQ;
      DropNothing(chans[c].sendQ, g);
      DropNothing(chans[c].recvQ, g);
    }
  }

  lemma CasesOf(s: S, g: Gid)
    requires Core(s) && Parked(s, g)
    ensures EntriesAreCases(s.chans, g, s.gors[g].cases)
  {
    forall c | c in s.chans ensures NoDup(s.chans[c].sendQ) && NoDup(s.chans[c].recvQ) { assert ChanOk(s.chans[c]); }
    hide Counts, RunQueue, TimersOk, ChansOk, NoDup;
  }

  lemma NoDupTail<T>(q: seq<T>)
    requires NoDup(q) && q != []
    ensures NoDup(q[1..]) && q[0] !in q[1..]
  { }

  function ShiftRecv(chans: map<Cid, Chan>, c: Cid): map<Cid, Chan>
    requires c in chans && chans[c].recvQ != []
  {
    chans[c := chans[c].(recvQ := chans[c].recvQ[1..])]
  }

  function ShiftSend(chans: map<Cid, Chan>, c: Cid): map<Cid, Chan>
    requires c in chans && chans[c].sendQ != []
  {
    chans[c := chans[c].(sendQ := chans[c].sendQ[1..])]
  }

  lemma ShiftRecvSameDrop(chans: map<Cid, Chan>, c: Cid)
    requires c in chans && chans[c].recvQ != []
    ensures DropAll(ShiftRecv(chans, c), chans[c].recvQ[0].g) == DropAll(chans, chans[c].recvQ[0].g)
  {
    hide Drop;
    DropHead(chans[c].recvQ);
  }

  lemma DropHead(q: seq<Entry>)
    requires q != []
    ensures Drop(q, q[0].g) == Drop(q[1..], q[0].g)
  { }

  lemma ShiftRecvDrops(chans: map<Cid, Chan>, c: Cid, cases: seq<Comm>)
    requires c in chans && chans[c].recvQ != [] && EntriesAreCases(chans, chans[c].recvQ[0].g, cases)
    ensures EntriesAreCases(ShiftRecv(chans, c), chans[c].recvQ[0].g, cases)
    ensures |cases| == 1 ==> NoEntries(ShiftRecv(chans, c), chans[c].recvQ[0].g)
  {
    var e := chans[c].recvQ[0];
    var now := ShiftRecv(chans, c);
    NoDupTail(chans[c].recvQ);
    hide NoDup;
    if |cases| == 1 {
      assert e in chans[c].recvQ;
      forall d, x | d in now && x in now[d].sendQ + now[d].recvQ ensures x.g != e.g {
        assert x.g == e.g ==> x.i == e.i;
      }
    }
  }

  lemma ShiftSendSameDrop(chans: map<Cid, Chan>, c: Cid)
    requires c in chans && chans[c].sendQ != []
    ensures DropAll(ShiftSend(chans, c), chans[c].sendQ[0].g) == DropAll(chans, chans[c].sendQ[0].g)
  {
    hide Drop;
    DropHead(chans[c].sendQ);
  }

  lemma ShiftSendDrops(chans: map<Cid, Chan>, c: Cid, cases: seq<Comm>)
    requires c in chans && chans[c].sendQ != [] && EntriesAreCases(chans, chans[c].sendQ[0].g, cases)
    ensures EntriesAreCases(ShiftSend(chans, c), chans[c].sendQ[0].g, cases)
    ensures |cases| == 1 ==> NoEntries(ShiftSend(chans, c), chans[c].sendQ[0].g)
  {
    var e := chans[c].sendQ[0];
    var now := ShiftSend(chans, c);
    NoDupTail(chans[c].sendQ);
    hide NoDup;
    if |cases| == 1 {
      assert e in chans[c].sendQ;
      forall d, x | d in now && x in now[d].sendQ + now[d].recvQ ensures x.g != e.g {
        assert x.g == e.g ==> x.i == e.i;
      }
    }
  }

  /** The head of the receive queue may be called once it is shifted off, and shifting it first makes
      no difference to the wake-up. */
  lemma ReceiverShifted(s: S, c: Cid)
    requires Core(s) && c in s.chans && s.chans[c].recvQ != []
    ensures var e := s.chans[c].recvQ[0];
            && Parked(s, e.g) && Receives(s, e, c) && EntriesAreCases(ShiftRecv(s.chans, c), e.g, s.gors[e.g].cases)
            && (s.gors[e.g].plain ==> NoEntries(ShiftRecv(s.chans, c), e.g))
            && DropAll(ShiftRecv(s.chans, c), e.g) == DropAll(s.chans, e.g)
  {
    var e := s.chans[c].recvQ[0];
    assert Receives(s, e, c);
    CasesOf(s, e.g);
    assert s.gors[e.g].plain ==> |s.gors[e.g].cases| == 1;
    hide Core, EntriesAreCases, NoEntries;
    ShiftRecvSameDrop(s.chans, c);
    ShiftRecvDrops(s.chans, c, s.gors[e.g].cases);
  }

  lemma SenderShifted(s: S, c: Cid)
    requires Core(s) && c in s.chans && s.chans[c].sendQ != []
    ensures var e := s.chans[c].sendQ[0];
            && Parked(s, e.g) && Sends(s, e, c) && EntriesAreCases(ShiftSend(s.chans, c), e.g, s.gors[e.g].cases)
            && (s.gors[e.g].plain ==> NoEntries(ShiftSend(s.chans, c), e.g))
            && DropAll(ShiftSend(s.chans, c), e.g) == DropAll(s.chans, e.g)
  {
    var e := s.chans[c].sendQ[0];
    assert Sends(s, e, c);
    CasesOf(s, e.g);
    assert s.gors[e.g].plain ==> |s.gors[e.g].cases| == 1;
    hide Core, EntriesAreCases, NoEntries;
    ShiftSendSameDrop(s.chans, c);
    ShiftSendDrops(s.chans, c, s.gors[e.g].cases);
  }

  lemma DroppedNone(chans: map<Cid, Chan>, g: Gid)
    ensures Dropped(chans, chans, g, 0)
  {
    forall c | c in chans ensures DropBelow(chans[c].sendQ, g, 0) == chans[c].sendQ
        && DropBelow(chans[c].recvQ, g, 0) == chans[c].recvQ {
      DropBelowZero(chans[c].sendQ, g);
      DropBelowZero(chans[c].recvQ, g);
    }
  }

  lemma DroppedEvery(was: map<Cid, Chan>, now: map<Cid, Chan>, g: Gid, cases: seq<Comm>)
    requires EntriesAreCases(was, g, cases) && Dropped(was, now, g, |cases|)
    ensures now == DropAll(was, g)
  {
    forall c | c in was ensures now[c] == DropAll(was, g)[c] {
      DropBelowAll(was[c].sendQ, g, |cases|);
      DropBelowAll(was[c].recvQ, g, |cases|);
    }
  }

  ghost predicate OneSpliced(before: map<Cid, Chan>, now: map<Cid, Chan>, comm: Comm, e: Entry) {
    && now.Keys == before.Keys
    && (forall c | c in before ::
          && (if comm.SendCase? && comm.c == Some(c) then Spliced(before[c].sendQ, now[c].sendQ, e)
              else now[c].sendQ == before[c].sendQ)
          && (if comm.RecvCase? && comm.c == Some(c) then Spliced(before[c].recvQ, now[c].recvQ, e)
              else now[c].recvQ == before[c].recvQ)
          && now[c] == before[c].(sendQ := now[c].sendQ, recvQ := now[c].recvQ))
  }

  /** One round of the loop in removeFromQueues. */
  lemma DroppedOne(was: map<Cid, Chan>, before: map<Cid, Chan>, now: map<Cid, Chan>, g: Gid, cases: seq<Comm>, i: nat)
    requires i < |cases| && EntriesAreCases(was, g, cases) && Dropped(was, before, g, i)
    requires OneSpliced(before, now, cases[i], Entry(g, i))
    ensures Dropped(was, now, g, i + 1)
  {
    forall c | c in was
      ensures now[c].sendQ == DropBelow(was[c].sendQ, g, i + 1) && now[c].recvQ == DropBelow(was[c].recvQ, g, i + 1)
    {
      SplicedOne(was[c].sendQ, now[c].sendQ, g, i);
      SplicedOne(was[c].recvQ, now[c].recvQ, g, i);
    }
  }

  lemma SplicedOne(q: seq<Entry>, r: seq<Entry>, g: Gid, i: nat)
    requires NoDup(q) && (Spliced(DropBelow(q, g, i), r, Entry(g, i)) || (Entry(g, i) !in q && r == DropBelow(q, g, i)))
    ensures r == DropBelow(q, g, i + 1)
  {
    if Entry(g, i) in q {
      var d := DropBelow(q, g, i);
      var k :| 0 <= k < |d| && d[k] == Entry(g, i) && r == d[..k] + d[k + 1..];
      DropBelowSplice(q, g, i, k);
    } else {
      DropBelowSame(q, g, i);
    }
  }
}
