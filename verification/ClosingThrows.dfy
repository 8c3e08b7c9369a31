/** All that happens when $close throws because a select waits to send on the channel. */
module ClosingThrows {
  import opened Scheduler
  import opened SchedulerInvariant
  import opened ClosingSelects
  import opened GoroutineRuntime

  /** The first k senders of c have been told that it is closed, the next entry is gone, and nothing else has
      happened: the entries behind it and the receivers are still there. */
  ghost predicate ThrewAt(s: S, t: S, c: Cid, k: nat) {
    && c in s.chans && k < |s.chans[c].sendQ|
    && var q := s.chans[c].sendQ;
       && t == s.(gors := t.gors, chans := s.chans[c := s.chans[c].(sendQ := q[k + 1..])],
                  awake := s.awake + k, scheduled := s.scheduled + Goroutines(q[..k]))
       && t.gors.Keys == s.gors.Keys
       && (forall i | 0 <= i < k :: q[i].g in s.gors
                                    && t.gors[q[i].g] == s.gors[q[i].g].(asleep := false, result := SendDone(true)))
       && (forall g | g in s.gors && g !in Goroutines(q[..k]) :: t.gors[g] == s.gors[g])
  }

  function Goroutines(q: seq<Entry>): (w: seq<Gid>)
    ensures |w| == |q| && forall i | 0 <= i < |q| :: w[i] == q[i].g
  {
    seq(|q|, i requires 0 <= i < |q| => q[i].g)
  }

  /** The select whose entry comes first. */
  predicate FirstSelect(s: S, c: Cid, k: nat) {
    && c in s.chans && k < |s.chans[c].sendQ|
    && forall i | 0 <= i <= k ::
         s.chans[c].sendQ[i].g in s.gors && (s.gors[s.chans[c].sendQ[i].g].plain <==> i < k)
  }

  /** A sender that waits for nothing else has one entry. */
  lemma PlainShifted(s: S, c: Cid, r: Result)
    requires Core(s) && CurAwake(s) && c in s.chans && s.chans[c].sendQ != []
    requires s.chans[c].sendQ[0].g in s.gors && s.gors[s.chans[c].sendQ[0].g].plain
    ensures var t := Wake(s, s.chans[c].sendQ[0].g, r);
            && Core(t) && CurAwake(t)
            && t == s.(gors := s.gors[s.chans[c].sendQ[0].g := s.gors[s.chans[c].sendQ[0].g].(asleep := false,
                                                                                              result := r)],
                       chans := ShiftSend(s.chans, c), awake := s.awake + 1,
                       scheduled := s.scheduled + [s.chans[c].sendQ[0].g])
            && forall i | 0 < i < |s.chans[c].sendQ| :: s.chans[c].sendQ[i].g != s.chans[c].sendQ[0].g
  {
    hide Core, CurAwake, EntriesAreCases, DropAll;
    var e := s.chans[c].sendQ[0];
    assert e in s.chans[c].sendQ + s.chans[c].recvQ;
    SenderShifted(s, c);
    NothingToDrop(ShiftSend(s.chans, c), e.g);
    WakeHead(s, c, e, r);
    forall i | 0 < i < |s.chans[c].sendQ| ensures s.chans[c].sendQ[i].g != e.g {
      assert ShiftSend(s.chans, c)[c].sendQ[i - 1] in ShiftSend(s.chans, c)[c].sendQ + ShiftSend(s.chans, c)[c].recvQ;
    }
  }

  lemma {:induction false} UpToSelect(s: S, c: Cid, k: nat)
    requires Core(s) && CurAwake(s) && FirstSelect(s, c, k)
    ensures ThrewAt(s, CloseUpToSelect(s, c), c, k)
    decreases k
  {
    hide Core, CurAwake, Wake, DropAll;
    if k > 0 {
      var q := s.chans[c].sendQ;
      var r := SendDone(true);
      PlainShifted(s, c, r);
      var u := Wake(s, q[0].g, r);
      ShorterSenders(s, c, r);
      UpToSelect(u, c, k - 1);
      ThrewMore(s, u, CloseUpToSelect(u, c), c, k);
    }
  }

  lemma ThrewMore(s: S, u: S, t: S, c: Cid, k: nat)
    requires 0 < k && FirstSelect(s, c, k) && ThrewAt(u, t, c, k - 1)
    requires forall i | 0 < i < |s.chans[c].sendQ| :: s.chans[c].sendQ[i].g != s.chans[c].sendQ[0].g
    requires var g := s.chans[c].sendQ[0].g;
             u == s.(gors := s.gors[g := s.gors[g].(asleep := false, result := SendDone(true))],
                     chans := ShiftSend(s.chans, c), awake := s.awake + 1, scheduled := s.scheduled + [g])
    ensures ThrewAt(s, t, c, k)
  {
    var q := s.chans[c].sendQ;
    assert q[1..][k..] == q[k + 1..];
    assert Goroutines(q[..k]) == [q[0].g] + Goroutines(q[1..][..k - 1]);
    assert (s.scheduled + [q[0].g]) + Goroutines(q[1..][..k - 1]) == s.scheduled + Goroutines(q[..k]);
    forall i | 0 < i < k ensures t.gors[q[i].g] == s.gors[q[i].g].(asleep := false, result := SendDone(true)) {
      assert q[1..][i - 1] == q[i];
    }
    assert q[0].g !in Goroutines(q[1..][..k - 1]);
  }

  lemma SendersKnown(s: S, c: Cid)
    requires Core(s) && c in s.chans
    ensures forall i | 0 <= i < |s.chans[c].sendQ| :: s.chans[c].sendQ[i].g in s.gors
  {
    hide RunQueue, ChansOk, Counts, TimersOk;
    assert forall i | 0 <= i < |s.chans[c].sendQ| :: Sends(s, s.chans[c].sendQ[i], c);
  }

  lemma SelectFound(s: S, c: Cid) returns (k: nat)
    requires c in s.chans && !OnlyPlainSenders(s, c)
    requires forall i | 0 <= i < |s.chans[c].sendQ| :: s.chans[c].sendQ[i].g in s.gors
    ensures FirstSelect(s, c, k)
  {
    var q := s.chans[c].sendQ;
    var e :| e in q && !(e.g in s.gors && s.gors[e.g].plain);
    var last :| 0 <= last < |q| && q[last] == e;
    k := 0;
    while s.gors[q[k].g].plain
      invariant 0 <= k <= last
      invariant forall i | 0 <= i < k :: s.gors[q[i].g].plain
      decreases last - k
    {
      k := k + 1;
    }
  }

  /** When $close throws, the channel is closed, the senders before the first select have been woken and told, that
      select's entry is gone, and everybody else waits on. */
  lemma CloseThrewAt(s: S, c: Cid)
    requires Inv(s) && CurAwake(s) && c in s.chans && !OnlyPlainSenders(s, c)
    requires forall i | 0 <= i < |s.timers| :: s.timers[i] != CloseChan(c)
    ensures exists k :: FirstSelect(s, c, k)
                        && ThrewAt(WithChan(s, c, s.chans[c].(closed := true)), CloseThrows(s, c), c, k)
  {
    InvParts(s);
    SendersKnown(s, c);
    var k := SelectFound(s, c);
    hide Core, ClosedEmpty, CloseUpToSelect, ThrewAt, OnlyPlainSenders;
    ClosedCore(s, c);
    UpToSelect(WithChan(s, c, s.chans[c].(closed := true)), c, k);
  }
}
