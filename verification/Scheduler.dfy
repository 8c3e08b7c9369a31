/** Goroutines, channels, select and timers of compiler/prelude/goroutines.js as steps over one state.

    An entry of a channel queue is named by its goroutine and the number of the case it stands for;
    a plain $send or $recv parks with one case.  `sent` and `received` record, per channel, the
    values whose send has taken effect and the values handed to receivers, in order. */
module Scheduler {

  datatype Option<+T> = None | Some(value: T)

  type Gid = nat
  type Cid = nat
  type Val = int

  const ZERO: Val := 0

  /** A channel operation; the channel None is nil. */
  datatype Comm = Default | RecvCase(c: Option<Cid>) | SendCase(c: Option<Cid>, v: Val)

  datatype Result =
    | Pending
    | SendDone(closed: bool)
    | Received(v: Val, ok: bool)
    | Selected(i: nat)
    | SelectedRecv(i: nat, v: Val, ok: bool)

  datatype Gor = Gor(asleep: bool, exit: bool, plain: bool, cases: seq<Comm>, result: Result)

  datatype Entry = Entry(g: Gid, i: nat)

  datatype Chan = Chan(cap: nat, buf: seq<Val>, sendQ: seq<Entry>, recvQ: seq<Entry>, closed: bool, timer: bool,
                       sent: seq<Val>, received: seq<Val>)

  /** A $setTimeout callback: it closes the private channel of a sleeper, or starts a goroutine and,
      when periodic, sets itself again. */
  datatype Timer = CloseChan(c: Cid) | Start(periodic: bool)

  datatype S = S(gors: map<Gid, Gor>, chans: map<Cid, Chan>, cur: Option<Gid>, scheduled: seq<Gid>,
                 total: int, awake: int, timers: seq<Timer>, cancelled: nat, reported: bool)

  // ----- what the steps do -----

  /** The deadlock report and the callbacks are left alone. */
  predicate Quiet(s: S, t: S) {
    t.cancelled == s.cancelled && t.reported == s.reported && t.timers == s.timers
  }

  /** Entries of g leave a queue. */
  function Drop(q: seq<Entry>, g: Gid): (r: seq<Entry>)
    ensures forall e :: e in r <==> e in q && e.g != g
  {
    if q == [] then [] else (if q[0].g == g then [] else [q[0]]) + Drop(q[1..], g)
  }

  function DropAll(chans: map<Cid, Chan>, g: Gid): map<Cid, Chan> {
    map c | c in chans :: chans[c].(sendQ := Drop(chans[c].sendQ, g), recvQ := Drop(chans[c].recvQ, g))
  }

  predicate Parked(s: S, g: Gid) {
    g in s.gors && s.gors[g].asleep && !s.gors[g].exit
  }

  predicate Running(s: S) {
    s.cur.Some? && s.cur.value in s.gors && !s.gors[s.cur.value].asleep && !s.gors[s.cur.value].exit
  }

  /** An entry's closure: the result is stored, the other cases leave their queues, $schedule. */
  function Wake(s: S, g: Gid, r: Result): S
    requires g in s.gors
  {
    s.(gors := s.gors[g := s.gors[g].(asleep := false, result := r)], chans := DropAll(s.chans, g),
       awake := s.awake + 1, scheduled := s.scheduled + [g])
  }

  function RecvResult(plain: bool, i: nat, v: Val, ok: bool): Result {
    if plain then Received(v, ok) else SelectedRecv(i, v, ok)
  }

  function SendResult(plain: bool, i: nat, closed: bool): Result {
    if plain then SendDone(closed) else Selected(i)
  }

  /** The queues after `$sendQueue.push` and `$recvQueue.push` for the cases from i on. */
  function Push(chans: map<Cid, Chan>, g: Gid, cases: seq<Comm>, i: nat): map<Cid, Chan>
    requires i <= |cases|
    decreases |cases| - i
  {
    if i == |cases| then chans
    else Push(PushOne(chans, Entry(g, i), cases[i]), g, cases, i + 1)
  }

  function PushOne(chans: map<Cid, Chan>, e: Entry, comm: Comm): map<Cid, Chan> {
    match comm
    case SendCase(Some(c), _) => if c in chans then chans[c := chans[c].(sendQ := chans[c].sendQ + [e])] else chans
    case RecvCase(Some(c)) => if c in chans then chans[c := chans[c].(recvQ := chans[c].recvQ + [e])] else chans
    case _ => chans
  }

  /** The running goroutine parks on the given cases. */
  function Park(s: S, cases: seq<Comm>, plain: bool): S
    requires Running(s)
  {
    var g := s.cur.value;
    s.(gors := s.gors[g := Gor(true, false, plain, cases, Pending)], chans := Push(s.chans, g, cases, 0))
  }

  function SetResult(s: S, r: Result): S
    requires Running(s)
  {
    s.(gors := s.gors[s.cur.value := s.gors[s.cur.value].(result := r)])
  }

  /** $send on an open channel. */
  function Send(s: S, c: Option<Cid>, v: Val): (s': S)
    requires Running(s) && (c.Some? ==> c.value in s.chans) && Wakeable(s, c)
    ensures Quiet(s, s')
  {
    if c == None then Park(s, [SendCase(None, v)], true)
    else
      var ch := s.chans[c.value];
      if ch.recvQ != [] then
        var e := ch.recvQ[0];
        var s1 := Wake(s, e.g, RecvResult(s.gors[e.g].plain, e.i, v, true));
        s1.(chans := s1.chans[c.value := s1.chans[c.value].(sent := ch.sent + [v], received := ch.received + [v])])
      else if |ch.buf| < ch.cap then
        s.(chans := s.chans[c.value := ch.(buf := ch.buf + [v], sent := ch.sent + [v])])
      else Park(s, [SendCase(c, v)], true)
  }

  /** The goroutines at the heads of the queues exist and the head of the send queue is a send. */
  predicate Wakeable(s: S, c: Option<Cid>) {
    c.Some? && c.value in s.chans ==>
      var ch := s.chans[c.value];
      && (forall e | e in ch.recvQ :: e.g in s.gors)
      && (forall e | e in ch.sendQ :: e.g in s.gors && e.i < |s.gors[e.g].cases| && s.gors[e.g].cases[e.i].SendCase?)
  }

  /** The first half of $recv: the first parked sender's value moves to the buffer and it is woken. */
  function Refill(s: S, c: Cid): (s': S)
    requires c in s.chans && Wakeable(s, Some(c))
    ensures s'.chans.Keys == s.chans.Keys
  {
    var ch := s.chans[c];
    if ch.sendQ == [] then s
    else
      var e := ch.sendQ[0];
      var v := s.gors[e.g].cases[e.i].v;
      var s1 := Wake(s, e.g, SendResult(s.gors[e.g].plain, e.i, false));
      s1.(chans := s1.chans[c := s1.chans[c].(buf := ch.buf + [v], sent := ch.sent + [v])])
  }

  /** $recv, by itself or for case i of a select. */
  function Recv(s: S, c: Option<Cid>, plain: bool, i: nat): (s': S)
    requires Running(s) && (c.Some? ==> c.value in s.chans) && Wakeable(s, c)
    requires c.Some? ==> forall e | e in s.chans[c.value].sendQ :: e.g != s.cur.value
    ensures Quiet(s, s')
  {
    if c == None then Park(s, [RecvCase(None)], true)
    else
      var s1 := Refill(s, c.value);
      var ch := s1.chans[c.value];
      if ch.buf != [] then
        SetResult(s1.(chans := s1.chans[c.value := ch.(buf := ch.buf[1..], received := ch.received + [ch.buf[0]])]),
                  RecvResult(plain, i, ch.buf[0], true))
      else if ch.closed then SetResult(s1, RecvResult(plain, i, ZERO, false))
      else Park(s1, [RecvCase(c)], true)
  }

  /** The loops of $close: every parked goroutine of the channel is woken. */
  function CloseSenders(s: S, c: Cid): (s': S)
    requires c in s.chans
    ensures s'.chans.Keys == s.chans.Keys && s'.gors.Keys == s.gors.Keys && Quiet(s, s')
    ensures |s'.chans[c].recvQ| <= |s.chans[c].recvQ|
    decreases |s.chans[c].sendQ|
  {
    var q := s.chans[c].sendQ;
    if q == [] || q[0].g !in s.gors then s
    else
      DropShorter(q, q[0].g);
      DropShorter(s.chans[c].recvQ, q[0].g);
      CloseSenders(Wake(s, q[0].g, SendResult(s.gors[q[0].g].plain, q[0].i, true)), c)
  }

  function CloseReceivers(s: S, c: Cid): (s': S)
    requires c in s.chans
    ensures s'.chans.Keys == s.chans.Keys && s'.gors.Keys == s.gors.Keys && Quiet(s, s')
    decreases |s.chans[c].recvQ|
  {
    var q := s.chans[c].recvQ;
    if q == [] || q[0].g !in s.gors then s
    else
      DropShorter(q, q[0].g);
      CloseReceivers(Wake(s, q[0].g, RecvResult(s.gors[q[0].g].plain, q[0].i, ZERO, false)), c)
  }

  lemma DropShorter(q: seq<Entry>, g: Gid)
    ensures |Drop(q, g)| <= |q| && (q != [] && q[0].g == g ==> |Drop(q, g)| < |q|)
  {
    if q != [] { DropShorter(q[1..], g); }
  }

  function Close(s: S, c: Cid): (s': S)
    requires c in s.chans
    ensures Quiet(s, s')
  {
    CloseReceivers(CloseSenders(s.(chans := s.chans[c := s.chans[c].(closed := true)]), c), c)
  }

  /** $close where a select waits to send: the senders before it are woken, its entry is shifted off, and
      the entry's closure throws in the goroutine that closes. */
  function CloseUpToSelect(s: S, c: Cid): (s': S)
    requires c in s.chans
    ensures s'.chans.Keys == s.chans.Keys
    decreases |s.chans[c].sendQ|
  {
    var q := s.chans[c].sendQ;
    if q == [] || q[0].g !in s.gors then s
    else if !s.gors[q[0].g].plain then s.(chans := s.chans[c := s.chans[c].(sendQ := q[1..])])
    else
      DropShorter(q, q[0].g);
      CloseUpToSelect(Wake(s, q[0].g, SendResult(true, q[0].i, true)), c)
  }

  function CloseThrows(s: S, c: Cid): S
    requires c in s.chans
  {
    CloseUpToSelect(s.(chans := s.chans[c := s.chans[c].(closed := true)]), c)
  }

  /** The cases of a select that can go on at once. */
  predicate Ready(s: S, comm: Comm) {
    match comm
    case Default => false
    case RecvCase(c) =>
      c.Some? && c.value in s.chans &&
      (s.chans[c.value].sendQ != [] || s.chans[c.value].buf != [] || s.chans[c.value].closed)
    case SendCase(c, _) =>
      c.Some? && c.value in s.chans &&
      (s.chans[c.value].recvQ != [] || |s.chans[c.value].buf| < s.chans[c.value].cap)
  }

  predicate AnyReady(s: S, comms: seq<Comm>) {
    exists i | 0 <= i < |comms| :: Ready(s, comms[i])
  }

  predicate HasDefault(comms: seq<Comm>) {
    Default in comms
  }

  /** The default case, as the loop leaves it in `selection`: the last one. */
  function DefaultIndex(comms: seq<Comm>): (i: nat)
    requires HasDefault(comms)
    ensures i < |comms| && comms[i] == Default
    decreases |comms|
  {
    if comms[|comms| - 1] == Default then |comms| - 1 else DefaultIndex(comms[..|comms| - 1])
  }

  /** $select; `pick` is the random choice among the ready cases. */
  function Select(s: S, comms: seq<Comm>, pick: nat): (s': S)
    requires Running(s) && CommsOk(s, comms)
    requires AnyReady(s, comms) ==> pick < |comms| && Ready(s, comms[pick])
    ensures Quiet(s, s')
  {
    if AnyReady(s, comms) then
      match comms[pick]
      case RecvCase(c) => Recv(s, c, false, pick)
      case SendCase(c, v) => SetResultOf(Send(s, c, v), s.cur.value, Selected(pick))
      case Default => s
    else if HasDefault(comms) then SetResult(s, Selected(DefaultIndex(comms)))
    else Park(s, comms, false)
  }

  function SetResultOf(s: S, g: Gid, r: Result): S {
    if g in s.gors then s.(gors := s.gors[g := s.gors[g].(result := r)]) else s
  }

  predicate CommsOk(s: S, comms: seq<Comm>) {
    forall i | 0 <= i < |comms| && !comms[i].Default? && comms[i].c.Some? ::
      && comms[i].c.value in s.chans && !s.chans[comms[i].c.value].timer && Wakeable(s, comms[i].c)
      && (comms[i].SendCase? ==> !s.chans[comms[i].c.value].closed)
      && (forall e | e in s.chans[comms[i].c.value].sendQ :: s.cur.Some? && e.g != s.cur.value)
  }

  // ----- goroutines and timers -----

  function NewGoroutine(s: S, g: Gid): S {
    s.(gors := s.gors[g := Gor(false, false, true, [], Pending)], total := s.total + 1, awake := s.awake + 1,
       scheduled := s.scheduled + [g])
  }

  /** The $runScheduled loop takes the next goroutine. */
  function RunNext(s: S): S
    requires s.scheduled != []
  {
    s.(cur := Some(s.scheduled[0]), scheduled := s.scheduled[1..])
  }

  /** The goroutine's function returns, or runtime.Goexit. */
  function Exit(s: S): S
    requires Running(s)
  {
    s.(gors := s.gors[s.cur.value := s.gors[s.cur.value].(exit := true)])
  }

  /** The finally block of $goroutine; `checking` says that main has not finished, the deadlock check
      is on and no function is exported. */
  function Finish(s: S, checking: bool): S
    requires s.cur.Some? && s.cur.value in s.gors
  {
    var g := s.cur.value;
    var s1 := s.(cur := None);
    var s2 := if s1.gors[g].exit
              then s1.(total := s1.total - 1, gors := s1.gors[g := s1.gors[g].(asleep := true)]) else s1;
    if s2.gors[g].asleep
    then s2.(awake := s2.awake - 1, reported := s2.reported || (checking && s2.awake - 1 == 0))
    else s2
  }

  function MakeChan(s: S, c: Cid, cap: nat, timer: bool): S {
    s.(chans := s.chans[c := Chan(cap, [], [], [], false, timer, [], [])])
  }

  function SetTimeout(s: S, t: Timer): S {
    s.(awake := s.awake + 1, timers := s.timers + [t])
  }

  /** time.Sleep and runtime.Gosched: a private channel, a timer that closes it, and a receive. */
  function Sleep(s: S, c: Cid): S
    requires Running(s) && c !in s.chans
  {
    Recv(SetTimeout(MakeChan(s, c, 0, true), CloseChan(c)), Some(c), true, 0)
  }

  /** stopTimer on a pending timer: the callback is gone, $awakeGoroutines is not touched. */
  function StopTimer(s: S, k: nat): S
    requires k < |s.timers|
  {
    s.(timers := s.timers[..k] + s.timers[k + 1..], cancelled := s.cancelled + 1)
  }

  /** The callback that $setTimeout wraps: the count goes down, then the close, or startTimer's
      callback, which sets a periodic timer again before it starts the goroutine. */
  function Fire(s: S, k: nat, g: Gid): S
    requires k < |s.timers| && (s.timers[k].CloseChan? ==> s.timers[k].c in s.chans)
  {
    var s1 := s.(timers := s.timers[..k] + s.timers[k + 1..], awake := s.awake - 1);
    match s.timers[k]
    case CloseChan(c) => Close(s1, c)
    case Start(periodic) => NewGoroutine(if periodic then SetTimeout(s1, Start(true)) else s1, g)
  }

  // ----- one step of the system -----

  datatype Step =
    | OpGo(g: Gid)
    | OpMake(cid: Cid, cap: nat)
    | OpSend(c: Option<Cid>, v: Val)
    | OpRecv(c: Option<Cid>)
    | OpClose(cid: Cid)
    | OpSelect(comms: seq<Comm>, pick: nat)
    | OpSleep(cid: Cid)
    | OpStartTimer(periodic: bool)
    | OpStopTimer(k: nat)
    | OpExit
    | OpFinish(checking: bool)
    | OpRunNext
    | OpFire(k: nat, g: Gid)

  /** A channel program code may name: it exists and is not the private channel of a sleeper. */
  predicate Usable(s: S, c: Option<Cid>) {
    c.Some? ==> c.value in s.chans && !s.chans[c.value].timer
  }

  predicate UsableCases(s: S, comms: seq<Comm>) {
    forall i | 0 <= i < |comms| && !comms[i].Default? :: Usable(s, comms[i].c)
  }

  /** No select sends on a channel that is closed: otherwise $select panics before it does anything. */
  predicate OpenForSend(s: S, c: Option<Cid>) {
    c.Some? && c.value in s.chans ==> !s.chans[c.value].closed
  }

  /** A send parked by a select would throw in the closer: no step of a run does that. */
  predicate OnlyPlainSenders(s: S, c: Cid) {
    c in s.chans ==> forall e | e in s.chans[c].sendQ :: e.g in s.gors && s.gors[e.g].plain
  }

  /** What the language and the runtime allow next.  Operations that panic leave the state alone and
      are not steps. */
  predicate Enabled(s: S, st: Step) {
    match st
    case OpGo(g) => Running(s) && g !in s.gors
    case OpMake(c, _) => Running(s) && c !in s.chans
    case OpSend(c, _) => Running(s) && Usable(s, c) && OpenForSend(s, c)
    case OpRecv(c) => Running(s) && Usable(s, c)
    case OpClose(c) => Running(s) && Usable(s, Some(c)) && !s.chans[c].closed && OnlyPlainSenders(s, c)
    case OpSelect(comms, pick) =>
      Running(s) && UsableCases(s, comms) &&
      (forall i | 0 <= i < |comms| && comms[i].SendCase? :: OpenForSend(s, comms[i].c)) &&
      (AnyReady(s, comms) ==> pick < |comms| && Ready(s, comms[pick]))
    case OpSleep(c) => Running(s) && c !in s.chans
    case OpStartTimer(_) => Running(s)
    case OpStopTimer(k) => Running(s) && k < |s.timers| && s.timers[k].Start?
    case OpExit => Running(s)
    case OpFinish(_) => s.cur.Some? && !Running(s)
    case OpRunNext => s.cur == None && s.scheduled != []
    case OpFire(k, g) => s.cur == None && k < |s.timers| && g !in s.gors
  }
}
