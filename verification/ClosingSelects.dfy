/** Closing a channel on which a select waits to send: $close of compiler/prelude/goroutines.js throws in the
    goroutine that closes, and the one that waits is forgotten. */
module ClosingSelects {
  import opened Scheduler
  import opened SchedulerInvariant

  /** A goroutine sleeps on a send to c that c knows nothing of. */
  ghost predicate Forgotten(s: S, c: Cid) {
    c in s.chans && exists e :: Sends(s, e, c) && e !in s.chans[c].sendQ
  }

  lemma WakeKeepsPlain(s: S, c: Cid, r: Result)
    requires c in s.chans && s.chans[c].sendQ != []
    requires s.chans[c].sendQ[0].g in s.gors && s.gors[s.chans[c].sendQ[0].g].plain
    ensures OnlyPlainSenders(Wake(s, s.chans[c].sendQ[0].g, r), c) <==> OnlyPlainSenders(s, c)
  {
    hide Drop;
    var g := s.chans[c].sendQ[0].g;
    var t := Wake(s, g, r);
    assert t.chans[c].sendQ == Drop(s.chans[c].sendQ, g);
    if OnlyPlainSenders(t, c) {
      forall e | e in s.chans[c].sendQ ensures e.g in s.gors && s.gors[e.g].plain {
        if e.g != g { assert e in t.chans[c].sendQ; }
      }
    }
  }

  /** Without such a select the senders are all woken. */
  lemma {:induction false} PlainSendersAllGo(s: S, c: Cid)
    requires c in s.chans && OnlyPlainSenders(s, c)
    ensures CloseUpToSelect(s, c) == CloseSenders(s, c)
    decreases |s.chans[c].sendQ|
  {
    var q := s.chans[c].sendQ;
    if q != [] {
      assert q[0] in q;
      var r := SendResult(true, q[0].i, true);
      WakeKeepsPlain(s, c, r);
      DropShorter(q, q[0].g);
      hide Wake, Drop, OnlyPlainSenders;
      assert |Wake(s, q[0].g, r).chans[c].sendQ| < |q| by { ShorterSenders(s, c, r); }
      PlainSendersAllGo(Wake(s, q[0].g, r), c);
    }
  }

  lemma ShorterSenders(s: S, c: Cid, r: Result)
    requires c in s.chans && s.chans[c].sendQ != [] && s.chans[c].sendQ[0].g in s.gors
    ensures |Wake(s, s.chans[c].sendQ[0].g, r).chans[c].sendQ| < |s.chans[c].sendQ|
  {
    DropShorter(s.chans[c].sendQ, s.chans[c].sendQ[0].g);
  }

  /** With one, its goroutine sleeps on and its entry is gone. */
  lemma {:induction false} SelectIsForgotten(s: S, c: Cid)
    requires Core(s) && CurAwake(s) && c in s.chans && !OnlyPlainSenders(s, c)
    ensures Forgotten(CloseUpToSelect(s, c), c)
    decreases |s.chans[c].sendQ|
  {
    var q := s.chans[c].sendQ;
    HeadSends(s, c);
    if s.gors[q[0].g].plain {
      var r := SendResult(true, q[0].i, true);
      WakeKeepsPlain(s, c, r);
      hide Core, Forgotten, OnlyPlainSenders;
      WakeHead(s, c, q[0], r);
      ShorterSenders(s, c, r);
      SelectIsForgotten(Wake(s, q[0].g, r), c);
    } else {
      var t := CloseUpToSelect(s, c);
      assert Sends(t, q[0], c);
      assert q[0] !in t.chans[c].sendQ;
    }
  }

  lemma HeadSends(s: S, c: Cid)
    requires Core(s) && c in s.chans && !OnlyPlainSenders(s, c)
    ensures var q := s.chans[c].sendQ;
            q != [] && Sends(s, q[0], c) && q[0] in q + s.chans[c].recvQ && q[0] !in q[1..]
  {
    hide RunQueue, Counts, TimersOk;
    var q := s.chans[c].sendQ;
    assert ChanOk(s.chans[c]);
    assert Sends(s, q[0], c);
  }

  /** $close keeps the invariant if and only if no select waits to send on the channel. */
  lemma CloseKeepsInv(s: S, c: Cid)
    requires Inv(s) && CurAwake(s) && c in s.chans
    requires forall k | 0 <= k < |s.timers| :: s.timers[k] != CloseChan(c)
    ensures Inv(if OnlyPlainSenders(s, c) then Close(s, c) else CloseThrows(s, c)) <==> OnlyPlainSenders(s, c)
    ensures !OnlyPlainSenders(s, c) ==> Forgotten(CloseThrows(s, c), c)
  {
    hide CloseUpToSelect, CloseSenders, CloseReceivers, Core, Forgotten;
    if OnlyPlainSenders(s, c) {
      CloseInv(s, c);
    } else {
      InvParts(s);
      ClosedCore(s, c);
      var s1 := WithChan(s, c, s.chans[c].(closed := true));
      SelectIsForgotten(s1, c);
      ForgottenIsWrong(CloseThrows(s, c), c);
    }
  }

  lemma ForgottenIsWrong(s: S, c: Cid)
    requires Forgotten(s, c)
    ensures !Inv(s)
  {
    hide RunQueue, ChansOk, Counts, TimersOk;
  }
}
