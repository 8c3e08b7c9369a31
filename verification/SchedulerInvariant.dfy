/** What every step of the scheduler keeps. */
module SchedulerInvariant {
  import opened Scheduler

  // ----- the invariant -----

  ghost predicate NoDup<T>(q: seq<T>) {
    forall i, j | 0 <= i < j < |q| :: q[i] != q[j]
  }

  /** A goroutine is queued to run once, only while it is runnable and not the running one, and every
      runnable goroutine is queued. */
  ghost predicate RunQueue(s: S) {
    && NoDup(s.scheduled)
    && (forall g | g in s.scheduled :: g in s.gors && !s.gors[g].asleep && !s.gors[g].exit && s.cur != Some(g))
    && (forall g | g in s.gors && !s.gors[g].asleep && s.cur != Some(g) :: g in s.scheduled)
    && (forall g | g in s.gors && s.gors[g].exit && s.cur != Some(g) :: s.gors[g].asleep)
    && (s.cur.Some? ==> s.cur.value in s.gors)
  }

  /** Goroutine e.g is parked with a case that sends on c, or receives from c. */
  ghost predicate Sends(s: S, e: Entry, c: Cid) {
    Parked(s, e.g) && e.i < |s.gors[e.g].cases| && s.gors[e.g].cases[e.i].SendCase?
    && s.gors[e.g].cases[e.i].c == Some(c)
  }

  ghost predicate Receives(s: S, e: Entry, c: Cid) {
    Parked(s, e.g) && e.i < |s.gors[e.g].cases| && s.gors[e.g].cases[e.i].RecvCase?
    && s.gors[e.g].cases[e.i].c == Some(c)
  }

  /** The queues hold exactly the non-nil cases of the parked goroutines. */
  ghost predicate QueuesMatch(s: S) {
    && (forall c, e | c in s.chans && e in s.chans[c].sendQ :: Sends(s, e, c))
    && (forall c, e | c in s.chans && e in s.chans[c].recvQ :: Receives(s, e, c))
    && (forall c, e | Sends(s, e, c) :: c in s.chans && e in s.chans[c].sendQ)
    && (forall c, e | Receives(s, e, c) :: c in s.chans && e in s.chans[c].recvQ)
    && (forall g | Parked(s, g) && s.gors[g].plain :: |s.gors[g].cases| == 1)
  }

  ghost predicate ChanOk(ch: Chan) {
    && |ch.buf| <= ch.cap
    && ch.sent == ch.received + ch.buf
    && (ch.sendQ != [] ==> |ch.buf| == ch.cap)
    && (ch.recvQ != [] ==> ch.buf == [])
    && (forall a, b | a in ch.sendQ && b in ch.recvQ :: a.g == b.g)
    && NoDup(ch.sendQ) && NoDup(ch.recvQ)
    && (ch.timer ==> ch.sendQ == [])
  }

  ghost predicate ChansOk(s: S) {
    forall c | c in s.chans :: ChanOk(s.chans[c])
  }

  ghost function AwakeSet(s: S): set<Gid> {
    set g | g in s.gors && (!s.gors[g].asleep || s.cur == Some(g))
  }

  ghost function LiveSet(s: S): set<Gid> {
    set g | g in s.gors && (!s.gors[g].exit || s.cur == Some(g))
  }

  ghost predicate Counts(s: S) {
    && s.awake == |AwakeSet(s)| + |s.timers| + s.cancelled
    && s.total == |LiveSet(s)|
  }

  ghost predicate TimersOk(s: S) {
    && (forall k | 0 <= k < |s.timers| && s.timers[k].CloseChan? ::
          s.timers[k].c in s.chans && s.chans[s.timers[k].c].timer && !s.chans[s.timers[k].c].closed)
    && (forall j, k | 0 <= j < k < |s.timers| && s.timers[j].CloseChan? :: s.timers[j] != s.timers[k])
  }

  /** Everything but that the queues of a closed channel are empty, which $close restores last. */
  ghost predicate Core(s: S) {
    RunQueue(s) && QueuesMatch(s) && ChansOk(s) && Counts(s) && TimersOk(s)
  }

  ghost predicate ClosedEmpty(s: S) {
    forall c | c in s.chans && s.chans[c].closed :: s.chans[c].sendQ == [] && s.chans[c].recvQ == []
  }

  ghost predicate Inv(s: S) {
    Core(s) && ClosedEmpty(s)
  }

  /** main has been started and nothing has run yet. */
  function Initial(): S {
    S(map[0 := Gor(false, false, true, [], Pending)], map[], None, [0], 1, 1, [], 0, false)
  }

  lemma InitialInv()
    ensures Inv(Initial())
  {
    assert AwakeSet(Initial()) == {0} && LiveSet(Initial()) == {0};
  }

  /** The queues go on matching when the parked goroutines stay as they are and no channel but one
      without waiters changes. */
  lemma SameParked(s: S, t: S)
    requires QueuesMatch(s)
    requires forall h :: Parked(t, h) == Parked(s, h)
    requires forall h | Parked(s, h) && Parked(t, h) ::
               t.gors[h].cases == s.gors[h].cases && t.gors[h].plain == s.gors[h].plain
    requires s.chans.Keys <= t.chans.Keys
    requires forall c | c in s.chans :: t.chans[c].sendQ == s.chans[c].sendQ && t.chans[c].recvQ == s.chans[c].recvQ
    requires forall c | c in t.chans && c !in s.chans :: t.chans[c].sendQ == [] && t.chans[c].recvQ == []
    ensures QueuesMatch(t)
  {
    forall c, e ensures Sends(t, e, c) == Sends(s, e, c) && Receives(t, e, c) == Receives(s, e, c) { }
  }

  // ----- waking -----

  lemma {:induction false} DropKeeps(q: seq<Entry>, g: Gid)
    requires NoDup(q)
    ensures NoDup(Drop(q, g))
  {
    if q != [] {
      DropKeeps(q[1..], g);
      if q[0].g != g { assert q[0] !in q[1..]; }
    }
  }

  ghost predicate CurAwake(s: S) {
    s.cur.Some? ==> s.cur.value in s.gors && !s.gors[s.cur.value].asleep
  }

  lemma WakeQueues(s: S, g: Gid, r: Result)
    requires QueuesMatch(s) && ChansOk(s) && g in s.gors
    ensures QueuesMatch(Wake(s, g, r)) && ChansOk(Wake(s, g, r))
    ensures forall c, e | c in s.chans :: e in Wake(s, g, r).chans[c].sendQ + Wake(s, g, r).chans[c].recvQ ==> e.g != g
  {
    hide NoDup, Drop, ChanOk, Wake;
    var t := Wake(s, g, r);
    WakeShape(s, g, r);
    forall c | c in s.chans ensures ChanOk(t.chans[c]) {
      DroppedOk(s.chans[c], g);
    }
    WakeCases(s, g, r);
    forall h | Parked(t, h) && t.gors[h].plain ensures |t.gors[h].cases| == 1 { assert Parked(s, h); }
    hide Sends, Receives;
  }

  /** What Wake does to goroutines and channels. */
  lemma WakeShape(s: S, g: Gid, r: Result)
    requires g in s.gors
    ensures var t := Wake(s, g, r);
            && t.gors == s.gors[g := s.gors[g].(asleep := false, result := r)] && t.cur == s.cur
            && t.chans.Keys == s.chans.Keys
            && (forall c | c in s.chans ::
                  t.chans[c] == s.chans[c].(sendQ := Drop(s.chans[c].sendQ, g), recvQ := Drop(s.chans[c].recvQ, g)))
  { }

  lemma WakeCases(s: S, g: Gid, r: Result)
    requires g in s.gors
    ensures forall c, e :: Sends(Wake(s, g, r), e, c) <==> Sends(s, e, c) && e.g != g
    ensures forall c, e :: Receives(Wake(s, g, r), e, c) <==> Receives(s, e, c) && e.g != g
  {
    hide Wake;
    WakeShape(s, g, r);
  }

  lemma DroppedOk(ch: Chan, g: Gid)
    requires ChanOk(ch)
    ensures ChanOk(ch.(sendQ := Drop(ch.sendQ, g), recvQ := Drop(ch.recvQ, g)))
  {
    hide NoDup, Drop;
    DropKeeps(ch.sendQ, g);
    DropKeeps(ch.recvQ, g);
    if Drop(ch.sendQ, g) != [] { assert Drop(ch.sendQ, g)[0] in Drop(ch.sendQ, g); }
    if Drop(ch.recvQ, g) != [] { assert Drop(ch.recvQ, g)[0] in Drop(ch.recvQ, g); }
  }

  lemma WakeInv(s: S, g: Gid, r: Result)
    requires Core(s) && CurAwake(s) && Parked(s, g)
    ensures Core(Wake(s, g, r)) && CurAwake(Wake(s, g, r))
    ensures Running(s) ==> Running(Wake(s, g, r))
    ensures ClosedEmpty(s) ==> ClosedEmpty(Wake(s, g, r))
  {
    WakeQueues(s, g, r);
    var t := Wake(s, g, r);
    assert AwakeSet(t) == AwakeSet(s) + {g};
    assert LiveSet(t) == LiveSet(s);
  }

  // ----- a channel's buffer and histories -----

  ghost predicate SameQueues(a: Chan, b: Chan) {
    a.sendQ == b.sendQ && a.recvQ == b.recvQ && a.closed == b.closed && a.timer == b.timer
  }

  function WithChan(s: S, c: Cid, ch: Chan): S {
    s.(chans := s.chans[c := ch])
  }

  lemma WithChanInv(s: S, c: Cid, ch: Chan)
    requires Core(s) && c in s.chans && SameQueues(ch, s.chans[c]) && ChanOk(ch)
    ensures Core(WithChan(s, c, ch))
    ensures ClosedEmpty(s) ==> ClosedEmpty(WithChan(s, c, ch))
  {
    hide ChanOk, NoDup, QueuesMatch;
    var t := WithChan(s, c, ch);
    assert AwakeSet(t) == AwakeSet(s) && LiveSet(t) == LiveSet(s);
    SameParked(s, t);
  }

  // ----- parking -----

  /** The entries that the cases from i on leave on a channel. */
  ghost function SendEntries(g: Gid, cases: seq<Comm>, i: nat, c: Cid): (q: seq<Entry>)
    requires i <= |cases|
    ensures forall e :: e in q <==> e.g == g && i <= e.i < |cases| && cases[e.i].SendCase? && cases[e.i].c == Some(c)
    ensures NoDup(q)
    decreases |cases| - i
  {
    if i == |cases| then []
    else if cases[i].SendCase? && cases[i].c == Some(c) then [Entry(g, i)] + SendEntries(g, cases, i + 1, c)
    else SendEntries(g, cases, i + 1, c)
  }

  ghost function RecvEntries(g: Gid, cases: seq<Comm>, i: nat, c: Cid): (q: seq<Entry>)
    requires i <= |cases|
    ensures forall e :: e in q <==> e.g == g && i <= e.i < |cases| && cases[e.i].RecvCase? && cases[e.i].c == Some(c)
    ensures NoDup(q)
    decreases |cases| - i
  {
    if i == |cases| then []
    else if cases[i].RecvCase? && cases[i].c == Some(c) then [Entry(g, i)] + RecvEntries(g, cases, i + 1, c)
    else RecvEntries(g, cases, i + 1, c)
  }

  lemma {:induction false} PushAppends(chans: map<Cid, Chan>, g: Gid, cases: seq<Comm>, i: nat)
    requires i <= |cases|
    ensures Push(chans, g, cases, i).Keys == chans.Keys
    ensures forall c | c in chans ::
              Push(chans, g, cases, i)[c] == chans[c].(sendQ := chans[c].sendQ + SendEntries(g, cases, i, c),
                                                       recvQ := chans[c].recvQ + RecvEntries(g, cases, i, c))
    decreases |cases| - i
  {
    if i < |cases| {
      hide PushOne, SendEntries, RecvEntries;
      var one := PushOne(chans, Entry(g, i), cases[i]);
      PushOneEntries(chans, g, cases, i);
      PushAppends(one, g, cases, i + 1);
    } else {
      NoEntriesLeft(chans, g, cases);
    }
  }

  lemma NoEntriesLeft(chans: map<Cid, Chan>, g: Gid, cases: seq<Comm>)
    ensures forall c | c in chans ::
              chans[c] == chans[c].(sendQ := chans[c].sendQ + SendEntries(g, cases, |cases|, c),
                                    recvQ := chans[c].recvQ + RecvEntries(g, cases, |cases|, c))
  { }

  lemma PushOneEntries(chans: map<Cid, Chan>, g: Gid, cases: seq<Comm>, i: nat)
    requires i < |cases|
    ensures var one := PushOne(chans, Entry(g, i), cases[i]);
            && one.Keys == chans.Keys
            && (forall c | c in chans ::
                  && one[c] == chans[c].(sendQ := one[c].sendQ, recvQ := one[c].recvQ)
                  && one[c].sendQ + SendEntries(g, cases, i + 1, c) == chans[c].sendQ + SendEntries(g, cases, i, c)
                  && one[c].recvQ + RecvEntries(g, cases, i + 1, c) == chans[c].recvQ + RecvEntries(g, cases, i, c))
  {
    hide PushOne, SendEntries, RecvEntries;
    var e, one := Entry(g, i), PushOne(chans, Entry(g, i), cases[i]);
    PushOneIs(chans, e, cases[i]);
    forall c | c in chans
      ensures one[c].sendQ + SendEntries(g, cases, i + 1, c) == chans[c].sendQ + SendEntries(g, cases, i, c)
      ensures one[c].recvQ + RecvEntries(g, cases, i + 1, c) == chans[c].recvQ + RecvEntries(g, cases, i, c)
    {
      EntriesCons(g, cases, i, c);
      Regroup(chans[c].sendQ, if SendsTo(cases[i], c) then [e] else [], SendEntries(g, cases, i + 1, c));
      Regroup(chans[c].recvQ, if RecvsFrom(cases[i], c) then [e] else [], RecvEntries(g, cases, i + 1, c));
    }
  }

  predicate SendsTo(comm: Comm, c: Cid) {
    comm.SendCase? && comm.c == Some(c)
  }

  predicate RecvsFrom(comm: Comm, c: Cid) {
    comm.RecvCase? && comm.c == Some(c)
  }

  lemma PushOneIs(chans: map<Cid, Chan>, e: Entry, comm: Comm)
    ensures var one := PushOne(chans, e, comm);
            && one.Keys == chans.Keys
            && (forall c | c in chans ::
                  one[c] == chans[c].(sendQ := chans[c].sendQ + if SendsTo(comm, c) then [e] else [],
                                      recvQ := chans[c].recvQ + if RecvsFrom(comm, c) then [e] else []))
  { }

  lemma EntriesCons(g: Gid, cases: seq<Comm>, i: nat, c: Cid)
    requires i < |cases|
    ensures SendEntries(g, cases, i, c) ==
              (if SendsTo(cases[i], c) then [Entry(g, i)] else []) + SendEntries(g, cases, i + 1, c)
    ensures RecvEntries(g, cases, i, c) ==
              (if RecvsFrom(cases[i], c) then [Entry(g, i)] else []) + RecvEntries(g, cases, i + 1, c)
  { }

  lemma Regroup<T>(a: seq<T>, b: seq<T>, c: seq<T>)
    ensures a + b + c == a + (b + c)
  { }

  lemma PushSingle(chans: map<Cid, Chan>, g: Gid, comm: Comm)
    ensures Push(chans, g, [comm], 0) == PushOne(chans, Entry(g, 0), comm)
  {
    assert Push(PushOne(chans, Entry(g, 0), comm), g, [comm], 1) == PushOne(chans, Entry(g, 0), comm);
  }

  /** No case can go on: what $select finds before it parks, and $send and $recv for their one case. */
  ghost predicate Stuck(s: S, cases: seq<Comm>) {
    forall i | 0 <= i < |cases| && !cases[i].Default? && cases[i].c.Some? ::
      && cases[i].c.value in s.chans && !Ready(s, cases[i])
      && (cases[i].SendCase? ==> !s.chans[cases[i].c.value].closed && !s.chans[cases[i].c.value].timer)
  }

  lemma NoDupConcat<T>(a: seq<T>, b: seq<T>)
    requires NoDup(a) && NoDup(b) && forall x | x in a :: x !in b
    ensures NoDup(a + b)
  {
    forall i, j | 0 <= i < j < |a + b| ensures (a + b)[i] != (a + b)[j] {
      if i < |a| <= j { assert a[i] in a && b[j - |a|] in b; }
    }
  }

  lemma ExtendChan(ch: Chan, g: Gid, sends: seq<Entry>, recvs: seq<Entry>)
    requires ChanOk(ch) && NoDup(sends) && NoDup(recvs)
    requires forall e | e in ch.sendQ + ch.recvQ :: e.g != g
    requires forall e | e in sends + recvs :: e.g == g
    requires sends != [] ==> ch.recvQ == [] && |ch.buf| >= ch.cap && !ch.timer
    requires recvs != [] ==> ch.sendQ == [] && ch.buf == []
    ensures ChanOk(ch.(sendQ := ch.sendQ + sends, recvQ := ch.recvQ + recvs))
  {
    assert forall e | e in ch.sendQ :: e in ch.sendQ + ch.recvQ;
    assert forall e | e in ch.recvQ :: e in ch.sendQ + ch.recvQ;
    assert forall e | e in sends :: e in sends + recvs;
    assert forall e | e in recvs :: e in sends + recvs;
    NoDupConcat(ch.sendQ, sends);
    NoDupConcat(ch.recvQ, recvs);
  }

  lemma ParkChan(s: S, cases: seq<Comm>, plain: bool, c: Cid)
    requires Core(s) && Running(s) && Stuck(s, cases) && c in s.chans
    ensures c in Park(s, cases, plain).chans && ChanOk(Park(s, cases, plain).chans[c])
    ensures ClosedEmpty(s) && s.chans[c].closed ==>
              Park(s, cases, plain).chans[c].sendQ == [] && Park(s, cases, plain).chans[c].recvQ == []
  {
    hide Counts, TimersOk, RunQueue;
    var g := s.cur.value;
    PushAppends(s.chans, g, cases, 0);
    var ch := s.chans[c];
    var sends, recvs := SendEntries(g, cases, 0, c), RecvEntries(g, cases, 0, c);
    forall e | e in ch.sendQ + ch.recvQ ensures e.g != g { assert Sends(s, e, c) || Receives(s, e, c); }
    assert ChanOk(ch);
    hide Core, ChanOk;
    if sends != [] {
      assert sends[0] in sends;
      assert !Ready(s, cases[sends[0].i]);
    }
    if recvs != [] {
      assert recvs[0] in recvs;
      assert !Ready(s, cases[recvs[0].i]);
    }
    ExtendChan(ch, g, sends, recvs);
  }

  lemma StuckExists(s: S, cases: seq<Comm>)
    requires Stuck(s, cases)
    ensures forall i | 0 <= i < |cases| && !cases[i].Default? && cases[i].c.Some? :: cases[i].c.value in s.chans
  { }

  lemma ParkShape(s: S, cases: seq<Comm>, plain: bool)
    requires Running(s)
    ensures var t, g := Park(s, cases, plain), s.cur.value;
            && t.gors == s.gors[g := Gor(true, false, plain, cases, Pending)] && t.chans.Keys == s.chans.Keys
            && (forall c | c in s.chans :: t.chans[c].sendQ == s.chans[c].sendQ + SendEntries(g, cases, 0, c))
            && (forall c | c in s.chans :: t.chans[c].recvQ == s.chans[c].recvQ + RecvEntries(g, cases, 0, c))
  {
    hide Push;
    PushAppends(s.chans, s.cur.value, cases, 0);
  }

  lemma ParkCases(s: S, cases: seq<Comm>, plain: bool)
    requires Running(s)
    ensures var t, g := Park(s, cases, plain), s.cur.value;
            && (forall h :: Parked(t, h) <==> Parked(s, h) || h == g)
            && (forall c: Cid, e: Entry | e.g == g :: !Sends(s, e, c) && !Receives(s, e, c))
            && (forall c: Cid, e: Entry :: Sends(t, e, c) <==>
                  if e.g == g then e.i < |cases| && cases[e.i].SendCase? && cases[e.i].c == Some(c) else Sends(s, e, c))
            && (forall c: Cid, e: Entry :: Receives(t, e, c) <==>
                  if e.g == g then e.i < |cases| && cases[e.i].RecvCase? && cases[e.i].c == Some(c)
                      else Receives(s, e, c))
  {
    hide Park;
    ParkShape(s, cases, plain);
  }

  lemma ParkQueues(s: S, cases: seq<Comm>, plain: bool)
    requires Core(s) && Running(s) && Stuck(s, cases) && (plain ==> |cases| == 1)
    ensures QueuesMatch(Park(s, cases, plain))
  {
    hide Counts, TimersOk, RunQueue, ChansOk, Park, Stuck, Sends, Receives, Parked, Running, NoDup;
    StuckExists(s, cases);
    ParkShape(s, cases, plain);
    ParkCases(s, cases, plain);
  }

  lemma ParkInv(s: S, cases: seq<Comm>, plain: bool)
    requires Inv(s) && Running(s) && Stuck(s, cases) && (plain ==> |cases| == 1)
    ensures Inv(Park(s, cases, plain))
  {
    hide Sends, Receives, Stuck, ChanOk, QueuesMatch, Push;
    var t := Park(s, cases, plain);
    ParkShape(s, cases, plain);
    ParkQueues(s, cases, plain);
    ParkChans(s, cases, plain);
    assert AwakeSet(t) == AwakeSet(s) && LiveSet(t) == LiveSet(s);
    PushOnlyQueues(s, cases, plain);
  }

  lemma ParkChans(s: S, cases: seq<Comm>, plain: bool)
    requires Inv(s) && Running(s) && Stuck(s, cases)
    ensures ChansOk(Park(s, cases, plain)) && ClosedEmpty(Park(s, cases, plain))
  {
    hide Stuck, ChanOk, Park, Core;
    ParkShape(s, cases, plain);
    forall c | c in s.chans ensures ChanOk(Park(s, cases, plain).chans[c]) {
      ParkChan(s, cases, plain, c);
    }
    PushOnlyQueues(s, cases, plain);
    forall c | c in s.chans && s.chans[c].closed
      ensures Park(s, cases, plain).chans[c].sendQ == [] && Park(s, cases, plain).chans[c].recvQ == []
    {
      ParkChan(s, cases, plain, c);
    }
  }

  lemma PushOnlyQueues(s: S, cases: seq<Comm>, plain: bool)
    requires Running(s)
    ensures var t := Park(s, cases, plain);
            && t.chans.Keys == s.chans.Keys
            && (forall c | c in s.chans ::
                  t.chans[c].closed == s.chans[c].closed && t.chans[c].timer == s.chans[c].timer)
            && t.timers == s.timers && t.scheduled == s.scheduled && t.cur == s.cur
  {
    hide Push;
    PushAppends(s.chans, s.cur.value, cases, 0);
  }

  // ----- the channel operations -----

  lemma WakeableQueues(s: S, c: Option<Cid>)
    requires Core(s) && Running(s)
    ensures Wakeable(s, c)
    ensures c.Some? && c.value in s.chans ==> forall e | e in s.chans[c.value].sendQ :: e.g != s.cur.value
  {
    hide Counts, TimersOk, RunQueue, ChansOk;
  }

  /** The parked goroutine at the head of a queue, and what its waking leaves of the channel. */
  lemma WakeHead(s: S, c: Cid, e: Entry, r: Result)
    requires Core(s) && CurAwake(s) && c in s.chans && e in s.chans[c].sendQ + s.chans[c].recvQ
    ensures Parked(s, e.g) && s.cur != Some(e.g)
    ensures Core(Wake(s, e.g, r)) && CurAwake(Wake(s, e.g, r))
    ensures Running(s) ==> Running(Wake(s, e.g, r))
    ensures ClosedEmpty(s) ==> ClosedEmpty(Wake(s, e.g, r))
  {
    assert Sends(s, e, c) || Receives(s, e, c);
    hide Core;
    WakeInv(s, e.g, r);
  }

  lemma SetResultInv(s: S, g: Gid, r: Result)
    requires Inv(s) && s.cur == Some(g) && Running(s)
    ensures Inv(SetResultOf(s, g, r)) && Running(SetResultOf(s, g, r))
  {
    hide ChanOk, NoDup, QueuesMatch;
    var t := SetResultOf(s, g, r);
    assert AwakeSet(t) == AwakeSet(s) && LiveSet(t) == LiveSet(s);
    SameParked(s, t);
  }

  /** Handing a value to the first receiver. */
  lemma SendIsHandOver(s: S, c: Cid, v: Val)
    requires Running(s) && c in s.chans && s.chans[c].recvQ != [] && Wakeable(s, Some(c))
    ensures var e := s.chans[c].recvQ[0];
            var u := Wake(s, e.g, RecvResult(s.gors[e.g].plain, e.i, v, true));
            && c in u.chans
            && Send(s, Some(c), v) == WithChan(u, c, u.chans[c].(sent := s.chans[c].sent + [v],
                                                                 received := s.chans[c].received + [v]))
  {
    hide Drop;
  }

  lemma SendToReceiver(s: S, c: Cid, v: Val)
    requires Inv(s) && Running(s) && c in s.chans && !s.chans[c].closed && s.chans[c].recvQ != []
             && Wakeable(s, Some(c))
    ensures Inv(Send(s, Some(c), v)) && Running(Send(s, Some(c), v)) && Send(s, Some(c), v).cur == s.cur
  {
    hide Core, ClosedEmpty, ChanOk, Send, Wake, Wakeable;
    var ch := s.chans[c];
    var e := ch.recvQ[0];
    assert e in ch.sendQ + ch.recvQ;
    HeadKnown(s, c);
    var r := RecvResult(s.gors[e.g].plain, e.i, v, true);
    var s1 := Wake(s, e.g, r);
    SendIsHandOver(s, c, v);
    WakeHead(s, c, e, r);
    InvParts(s);
    InvParts(s1);
    WakeShape(s, e.g, r);
    CoreChan(s, c);
    CoreChan(s1, c);
    var now := s1.chans[c].(sent := ch.sent + [v], received := ch.received + [v]);
    HandedOver(ch, s1.chans[c], v);
    WithChanInv(s1, c, now);
    InvParts(WithChan(s1, c, now));
  }

  lemma HeadKnown(s: S, c: Cid)
    requires Wakeable(s, Some(c)) && c in s.chans && s.chans[c].recvQ != []
    ensures s.chans[c].recvQ[0].g in s.gors
  { }

  lemma HandedOver(was: Chan, now: Chan, v: Val)
    requires ChanOk(was) && ChanOk(now) && was.recvQ != [] && now == was.(sendQ := now.sendQ, recvQ := now.recvQ)
    ensures var next := now.(sent := was.sent + [v], received := was.received + [v]);
            ChanOk(next) && SameQueues(next, now)
  {
    hide NoDup;
    assert (was.received + [v]) + was.buf == was.sent + [v];
  }

  lemma CoreChan(s: S, c: Cid)
    requires Core(s) && c in s.chans
    ensures ChanOk(s.chans[c])
  { }

  lemma SendInv(s: S, c: Option<Cid>, v: Val)
    requires Inv(s) && Running(s) && Usable(s, c) && OpenForSend(s, c)
    ensures Wakeable(s, c) && Inv(Send(s, c, v))
    ensures c.Some? && Ready(s, SendCase(c, v)) ==> Running(Send(s, c, v)) && Send(s, c, v).cur == s.cur
  {
    WakeableQueues(s, c);
    if c == None {
      ParkInv(s, [SendCase(None, v)], true);
    } else {
      var ch := s.chans[c.value];
      InvParts(s);
      CoreChan(s, c.value);
      hide Core, ClosedEmpty;
      if ch.recvQ != [] {
        SendToReceiver(s, c.value, v);
      } else if |ch.buf| < ch.cap {
        assert ch.received + (ch.buf + [v]) == ch.sent + [v];
        var now := ch.(buf := ch.buf + [v], sent := ch.sent + [v]);
        WithChanInv(s, c.value, now);
        InvParts(WithChan(s, c.value, now));
      } else {
        ParkInv(s, [SendCase(c, v)], true);
      }
    }
  }

  lemma RefillInv(s: S, c: Cid)
    requires Inv(s) && Running(s) && c in s.chans && s.chans[c].sendQ != []
    ensures Wakeable(s, Some(c)) && Core(s) && Parked(s, s.chans[c].sendQ[0].g)
    ensures var e := s.chans[c].sendQ[0]; var s1 := Wake(s, e.g, SendResult(s.gors[e.g].plain, e.i, false));
            && Inv(s1) && Running(s1) && s1.cur == s.cur
  {
    WakeableQueues(s, Some(c));
    var e := s.chans[c].sendQ[0];
    assert e in s.chans[c].sendQ + s.chans[c].recvQ;
    hide Core;
    WakeHead(s, c, e, SendResult(s.gors[e.g].plain, e.i, false));
  }

  /** The channel after a receive that finds a parked sender of v: v enters the buffer, the oldest
      value leaves it. */
  function Passed(was: Chan, now: Chan, v: Val): (r: Chan) {
    var buf := was.buf + [v];
    now.(buf := buf[1..], sent := was.sent + [v], received := was.received + [buf[0]])
  }

  lemma PassedOk(was: Chan, now: Chan, v: Val)
    requires ChanOk(was) && ChanOk(now) && was.sendQ != []
    requires now == was.(sendQ := now.sendQ, recvQ := now.recvQ)
    ensures ChanOk(Passed(was, now, v)) && SameQueues(Passed(was, now, v), now)
  {
    hide NoDup;
    var buf := was.buf + [v];
    assert (was.received + [buf[0]]) + buf[1..] == was.sent + [v];
  }

  function WokenSender(s: S, c: Cid): (t: S)
    requires c in s.chans && s.chans[c].sendQ != [] && Wakeable(s, Some(c))
    ensures t.chans.Keys == s.chans.Keys
  {
    var e := s.chans[c].sendQ[0];
    Wake(s, e.g, SendResult(s.gors[e.g].plain, e.i, false))
  }

  lemma RecvIsPassed(s: S, c: Cid, plain: bool, i: nat)
    requires Running(s) && c in s.chans && s.chans[c].sendQ != [] && Wakeable(s, Some(c))
    requires forall e | e in s.chans[c].sendQ :: e.g != s.cur.value
    ensures var e := s.chans[c].sendQ[0]; var s1 := WokenSender(s, c);
            var now := Passed(s.chans[c], s1.chans[c], s.gors[e.g].cases[e.i].v);
            && Running(WithChan(s1, c, now))
            && Recv(s, Some(c), plain, i)
            == SetResult(WithChan(s1, c, now), RecvResult(plain, i, (s.chans[c].buf + [s.gors[e.g].cases[e.i].v])[0],
                                                          true))
  {
    hide Drop;
    var e := s.chans[c].sendQ[0];
    var s1 := WokenSender(s, c);
    var now := Passed(s.chans[c], s1.chans[c], s.gors[e.g].cases[e.i].v);
    assert Refill(s, c).chans[c := now] == s1.chans[c := now];
  }

  lemma RecvFromSender(s: S, c: Cid, plain: bool, i: nat)
    requires Inv(s) && Running(s) && c in s.chans && s.chans[c].sendQ != []
    ensures Wakeable(s, Some(c)) && forall e | e in s.chans[c].sendQ :: e.g != s.cur.value
    ensures Inv(Recv(s, Some(c), plain, i)) && Running(Recv(s, Some(c), plain, i))
            && Recv(s, Some(c), plain, i).cur == s.cur
  {
    WakeableQueues(s, Some(c));
    RefillInv(s, c);
    RecvIsPassed(s, c, plain, i);
    hide Recv, Refill, Sends, Receives, QueuesMatch, RunQueue, Counts, TimersOk, ClosedEmpty, Passed, ChanOk;
    var e := s.chans[c].sendQ[0];
    var v := s.gors[e.g].cases[e.i].v;
    var s1 := WokenSender(s, c);
    var now := Passed(s.chans[c], s1.chans[c], v);
    PassedOk(s.chans[c], s1.chans[c], v);
    WithChanInv(s1, c, now);
    SetResultInv(WithChan(s1, c, now), s.cur.value, RecvResult(plain, i, (s.chans[c].buf + [v])[0], true));
  }

  lemma RecvInv(s: S, c: Option<Cid>, plain: bool, i: nat)
    requires Inv(s) && Running(s) && (c.Some? ==> c.value in s.chans)
    ensures Wakeable(s, c) && (c.Some? ==> forall e | e in s.chans[c.value].sendQ :: e.g != s.cur.value)
    ensures Inv(Recv(s, c, plain, i))
    ensures Ready(s, RecvCase(c)) ==> Running(Recv(s, c, plain, i)) && Recv(s, c, plain, i).cur == s.cur
  {
    WakeableQueues(s, c);
    if c == None {
      ParkInv(s, [RecvCase(None)], true);
    } else if s.chans[c.value].sendQ != [] {
      RecvFromSender(s, c.value, plain, i);
    } else {
      var ch := s.chans[c.value];
      assert ChanOk(ch);
      assert Refill(s, c.value) == s;
      hide Core, ClosedEmpty;
      if ch.buf != [] {
        var now := ch.(buf := ch.buf[1..], received := ch.received + [ch.buf[0]]);
        assert (ch.received + [ch.buf[0]]) + ch.buf[1..] == ch.sent;
        assert ChanOk(now) && SameQueues(now, ch);
        hide ChanOk;
        InvParts(s);
        WithChanInv(s, c.value, now);
        InvParts(WithChan(s, c.value, now));
        SetResultInv(WithChan(s, c.value, now), s.cur.value, RecvResult(plain, i, ch.buf[0], true));
      } else if ch.closed {
        SetResultInv(s, s.cur.value, RecvResult(plain, i, ZERO, false));
      } else {
        ParkInv(s, [RecvCase(c)], true);
      }
    }
  }

  lemma InvParts(s: S)
    ensures Inv(s) <==> Core(s) && ClosedEmpty(s)
  { }

  lemma CloseSendersInv(s: S, c: Cid)
    requires Core(s) && CurAwake(s) && c in s.chans
    requires forall d | d in s.chans && d != c && s.chans[d].closed :: s.chans[d].sendQ == [] && s.chans[d].recvQ == []
    ensures var t := CloseSenders(s, c);
            Core(t) && CurAwake(t) && t.chans[c].sendQ == [] && t.chans.Keys == s.chans.Keys
    ensures var t := CloseSenders(s, c); t.cur == s.cur && t.timers == s.timers && (Running(s) ==> Running(t))
    ensures forall d | d in s.chans ::
              && CloseSenders(s, c).chans[d].closed == s.chans[d].closed
              && (d != c && s.chans[d].closed ==>
                    CloseSenders(s, c).chans[d].sendQ == [] && CloseSenders(s, c).chans[d].recvQ == [])
    decreases |s.chans[c].sendQ|
  {
    var q := s.chans[c].sendQ;
    if q != [] {
      assert Sends(s, q[0], c);
      var r := SendResult(s.gors[q[0].g].plain, q[0].i, true);
      assert q[0] in s.chans[c].sendQ + s.chans[c].recvQ;
      hide Core;
      WakeHead(s, c, q[0], r);
      DropShorter(q, q[0].g);
      CloseSendersInv(Wake(s, q[0].g, r), c);
    }
  }

  lemma CloseReceiversInv(s: S, c: Cid)
    requires Core(s) && CurAwake(s) && c in s.chans && s.chans[c].sendQ == []
    requires forall d | d in s.chans && d != c && s.chans[d].closed :: s.chans[d].sendQ == [] && s.chans[d].recvQ == []
    ensures Inv(CloseReceivers(s, c)) && CloseReceivers(s, c).cur == s.cur
            && (Running(s) ==> Running(CloseReceivers(s, c)))
    ensures CloseReceivers(s, c).chans[c].closed == s.chans[c].closed
    ensures CloseReceivers(s, c).chans[c].sendQ == [] && CloseReceivers(s, c).chans[c].recvQ == []
    decreases |s.chans[c].recvQ|
  {
    var q := s.chans[c].recvQ;
    if q != [] {
      assert Receives(s, q[0], c);
      var r := RecvResult(s.gors[q[0].g].plain, q[0].i, ZERO, false);
      assert q[0] in s.chans[c].sendQ + s.chans[c].recvQ;
      hide Core;
      WakeHead(s, c, q[0], r);
      DropShorter(q, q[0].g);
      CloseReceiversInv(Wake(s, q[0].g, r), c);
    }
  }

  lemma ClosedCore(s: S, c: Cid)
    requires Core(s) && c in s.chans
    requires forall k | 0 <= k < |s.timers| :: s.timers[k] != CloseChan(c)
    ensures Core(WithChan(s, c, s.chans[c].(closed := true)))
  {
    hide ChanOk, NoDup, QueuesMatch;
    var t := WithChan(s, c, s.chans[c].(closed := true));
    assert ChanOk(t.chans[c]) by { ClosedChanOk(s.chans[c]); }
    assert AwakeSet(t) == AwakeSet(s) && LiveSet(t) == LiveSet(s);
    SameParked(s, t);
  }

  lemma ClosedChanOk(ch: Chan)
    requires ChanOk(ch)
    ensures ChanOk(ch.(closed := true))
  { }

  /** $close, by a running goroutine or by a timer callback: afterwards the channel is closed and
      nobody is parked on it. */
  lemma CloseInv(s: S, c: Cid)
    requires Inv(s) && CurAwake(s) && c in s.chans
    requires forall k | 0 <= k < |s.timers| :: s.timers[k] != CloseChan(c)
    ensures Inv(Close(s, c)) && Close(s, c).cur == s.cur && (Running(s) ==> Running(Close(s, c)))
    ensures c in Close(s, c).chans && Close(s, c).chans[c].closed
    ensures Close(s, c).chans[c].sendQ == [] && Close(s, c).chans[c].recvQ == []
  {
    InvParts(s);
    ClosedCore(s, c);
    hide Core;
    var s1 := WithChan(s, c, s.chans[c].(closed := true));
    CloseSendersInv(s1, c);
    CloseReceiversInv(CloseSenders(s1, c), c);
  }

  // ----- select -----

  lemma SelectOk(s: S, comms: seq<Comm>)
    requires Inv(s) && Running(s) && UsableCases(s, comms)
    requires forall i | 0 <= i < |comms| && comms[i].SendCase? :: OpenForSend(s, comms[i].c)
    ensures CommsOk(s, comms)
  {
    forall i | 0 <= i < |comms| && !comms[i].Default?
      ensures Wakeable(s, comms[i].c)
      ensures comms[i].c.Some? && comms[i].c.value in s.chans
              ==> forall e | e in s.chans[comms[i].c.value].sendQ :: e.g != s.cur.value
    {
      WakeableQueues(s, comms[i].c);
    }
  }

  /** $select keeps the invariant, and with a ready case, or a default, it does not park. */
  lemma SelectInv(s: S, comms: seq<Comm>, pick: nat)
    requires Inv(s) && Enabled(s, OpSelect(comms, pick))
    ensures CommsOk(s, comms) && Inv(Select(s, comms, pick))
    ensures Running(Select(s, comms, pick)) <==> AnyReady(s, comms) || HasDefault(comms)
  {
    SelectOk(s, comms);
    hide Inv;
    if AnyReady(s, comms) {
      match comms[pick]
      case RecvCase(c) => RecvInv(s, c, false, pick);
      case SendCase(c, v) =>
        assert Usable(s, comms[pick].c) && OpenForSend(s, comms[pick].c);
        SendInv(s, c, v);
        SetResultInv(Send(s, c, v), s.cur.value, Selected(pick));
    } else if HasDefault(comms) {
      SetResultInv(s, s.cur.value, Selected(DefaultIndex(comms)));
    } else {
      forall i | 0 <= i < |comms| && !comms[i].Default? && comms[i].c.Some?
        ensures !Ready(s, comms[i]) && Usable(s, comms[i].c) && (comms[i].SendCase? ==> OpenForSend(s, comms[i].c))
      { }
      ParkInv(s, comms, false);
    }
  }

  // ----- goroutines and timers -----

  lemma OneMore(a: set<Gid>, b: set<Gid>, g: Gid)
    requires g !in a && b == a + {g}
    ensures |b| == |a| + 1
  { }

  lemma NewSets(s: S, g: Gid)
    requires g !in s.gors && s.cur != Some(g)
    ensures g !in AwakeSet(s) && AwakeSet(NewGoroutine(s, g)) == AwakeSet(s) + {g}
    ensures g !in LiveSet(s) && LiveSet(NewGoroutine(s, g)) == LiveSet(s) + {g}
  { }

  lemma RunQueueNew(s: S, g: Gid)
    requires RunQueue(s) && g !in s.gors
    ensures RunQueue(NewGoroutine(s, g))
  {
    NoDupOne(g);
    NoDupConcat(s.scheduled, [g]);
    hide NoDup;
    assert forall h :: h in s.scheduled + [g] <==> h in s.scheduled || h == g;
  }

  lemma NewGoroutineInv(s: S, g: Gid)
    requires Inv(s) && g !in s.gors
    ensures Inv(NewGoroutine(s, g))
  {
    RunQueueNew(s, g);
    assert s.cur != Some(g);
    hide ChanOk, RunQueue, QueuesMatch, AwakeSet, LiveSet;
    var t := NewGoroutine(s, g);
    assert |AwakeSet(t)| == |AwakeSet(s)| + 1 by { NewSets(s, g); OneMore(AwakeSet(s), AwakeSet(t), g); }
    assert |LiveSet(t)| == |LiveSet(s)| + 1 by { NewSets(s, g); OneMore(LiveSet(s), LiveSet(t), g); }
    SameParked(s, t);
  }

  lemma RunNextInv(s: S)
    requires Inv(s) && s.cur == None && s.scheduled != []
    ensures Inv(RunNext(s)) && Running(RunNext(s))
  {
    hide ChanOk, QueuesMatch;
    var t := RunNext(s);
    assert s.scheduled[0] in s.scheduled;
    assert AwakeSet(t) == AwakeSet(s) && LiveSet(t) == LiveSet(s);
    SameParked(s, t);
  }

  lemma ExitInv(s: S)
    requires Inv(s) && Running(s)
    ensures Inv(Exit(s))
  {
    hide ChanOk, NoDup, QueuesMatch;
    var t := Exit(s);
    assert AwakeSet(t) == AwakeSet(s) && LiveSet(t) == LiveSet(s);
    SameParked(s, t);
  }

  lemma OneLess(a: set<Gid>, b: set<Gid>, g: Gid)
    requires g in a && b == a - {g}
    ensures |b| == |a| - 1
  { }

  lemma FinishSets(s: S, checking: bool)
    requires s.cur.Some? && s.cur.value in s.gors && !Running(s)
    ensures var t, g := Finish(s, checking), s.cur.value;
            && g in AwakeSet(s) && AwakeSet(t) == AwakeSet(s) - {g} && g in LiveSet(s)
            && LiveSet(t) == if s.gors[g].exit then LiveSet(s) - {g} else LiveSet(s)
  { }

  lemma FinishInv(s: S, checking: bool)
    requires Inv(s) && s.cur.Some? && !Running(s)
    ensures Inv(Finish(s, checking)) && Finish(s, checking).cur == None
  {
    hide ChanOk, NoDup, QueuesMatch, AwakeSet, LiveSet;
    var t := Finish(s, checking);
    var g := s.cur.value;
    FinishSets(s, checking);
    OneLess(AwakeSet(s), AwakeSet(t), g);
    if s.gors[g].exit { OneLess(LiveSet(s), LiveSet(t), g); }
    SameParked(s, t);
  }

  lemma MakeChanInv(s: S, c: Cid, cap: nat, timer: bool)
    requires Inv(s) && c !in s.chans
    ensures Inv(MakeChan(s, c, cap, timer))
  {
    hide NoDup, QueuesMatch;
    var t := MakeChan(s, c, cap, timer);
    assert NoDup<Entry>([]) by { NoDupEmpty(); }
    assert AwakeSet(t) == AwakeSet(s) && LiveSet(t) == LiveSet(s);
    SameParked(s, t);
  }

  lemma NoDupOne<T>(x: T)
    ensures NoDup([x])
  { }

  lemma NoDupEmpty()
    ensures NoDup<Entry>([])
  { }

  lemma SetTimeoutInv(s: S, tm: Timer)
    requires Inv(s)
    requires tm.CloseChan? ==> tm.c in s.chans && s.chans[tm.c].timer && !s.chans[tm.c].closed && tm !in s.timers
    ensures Inv(SetTimeout(s, tm))
  {
    hide ChanOk, NoDup, QueuesMatch;
    var t := SetTimeout(s, tm);
    assert AwakeSet(t) == AwakeSet(s) && LiveSet(t) == LiveSet(s);
    SameParked(s, t);
  }

  lemma SleepInv(s: S, c: Cid)
    requires Inv(s) && Running(s) && c !in s.chans
    ensures Inv(Sleep(s, c)) && !Running(Sleep(s, c))
  {
    MakeChanInv(s, c, 0, true);
    var s1 := MakeChan(s, c, 0, true);
    assert CloseChan(c) !in s1.timers;
    hide Inv;
    SetTimeoutInv(s1, CloseChan(c));
    RecvInv(SetTimeout(s1, CloseChan(c)), Some(c), true, 0);
  }

  /** Taking a timer away; `leak` says that $awakeGoroutines keeps counting it. */
  function WithoutTimer(s: S, k: nat, leak: bool): S
    requires k < |s.timers|
  {
    s.(timers := s.timers[..k] + s.timers[k + 1..], cancelled := if leak then s.cancelled + 1 else s.cancelled,
       awake := if leak then s.awake else s.awake - 1)
  }

  lemma WithoutTimerInv(s: S, k: nat, leak: bool)
    requires Inv(s) && k < |s.timers|
    ensures Inv(WithoutTimer(s, k, leak)) && (s.timers[k].CloseChan?
                                              ==> s.timers[k] !in WithoutTimer(s, k, leak).timers)
  {
    hide ChanOk, NoDup, QueuesMatch;
    var t := WithoutTimer(s, k, leak);
    assert forall j | 0 <= j < |t.timers| :: t.timers[j] == s.timers[if j < k then j else j + 1];
    assert AwakeSet(t) == AwakeSet(s) && LiveSet(t) == LiveSet(s);
    SameParked(s, t);
  }

  lemma FireInv(s: S, k: nat, g: Gid)
    requires Inv(s) && Enabled(s, OpFire(k, g))
    ensures (s.timers[k].CloseChan? ==> s.timers[k].c in s.chans) && Inv(Fire(s, k, g)) && Fire(s, k, g).cur == None
  {
    WithoutTimerInv(s, k, false);
    assert s.timers[k].CloseChan? ==> s.timers[k].c in s.chans;
    hide Inv;
    var s1 := WithoutTimer(s, k, false);
    match s.timers[k]
    case CloseChan(c) =>
      CloseInv(s1, c);
    case Start(periodic) =>
      if periodic { SetTimeoutInv(s1, Start(true)); }
      NewGoroutineInv(if periodic then SetTimeout(s1, Start(true)) else s1, g);
  }
}
