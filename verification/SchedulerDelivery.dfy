/** Which value reaches which goroutine: the histories of the channels against what the goroutines see. */
module SchedulerDelivery {
  import opened Scheduler
  import opened SchedulerInvariant
  import opened SchedulerSafety
  import R = SchedulerResults

  /** Case i of goroutine g on channel c is why g was woken between s and t, and g is told so: a
      receiver gets the next value handed out, or zero and false because the channel is closed; a
      sender learns that its value is the next one sent, or that the channel was closed. */
  ghost predicate WokenBy(s: S, t: S, g: Gid, i: nat, c: Cid) {
    && g in s.gors && g in t.gors && c in s.chans && c in t.chans
    && var was := s.gors[g];
       var r := t.gors[g].result;
       || (Receives(s, Entry(g, i), c) && R.ToldReceived(r, was.plain, i, ZERO, false) && t.chans[c].closed)
       || (Receives(s, Entry(g, i), c) && (r.Received? || r.SelectedRecv?) && R.ToldReceived(r, was.plain, i, r.v, true)
           && t.chans[c].received == s.chans[c].received + [r.v])
       || (Sends(s, Entry(g, i), c) && R.ToldSent(r, was.plain, i, true) && t.chans[c].closed)
       || (Sends(s, Entry(g, i), c) && R.ToldSent(r, was.plain, i, false)
           && t.chans[c].sent == s.chans[c].sent + [was.cases[i].v])
  }

  ghost predicate Woken(s: S, t: S, g: Gid) {
    exists i, c :: WokenBy(s, t, g, i, c)
  }

  /** The running goroutine's own operation on c. */
  predicate AsksSend(st: Step, c: Cid, v: Val) {
    st == OpSend(Some(c), v) || (st.OpSelect? && st.pick < |st.comms| && st.comms[st.pick] == SendCase(Some(c), v))
  }

  predicate AsksRecv(st: Step, c: Cid) {
    st == OpRecv(Some(c)) || (st.OpSelect? && st.pick < |st.comms| && st.comms[st.pick] == RecvCase(Some(c)))
  }

  function AskedResult(st: Step, v: Val): Result {
    if st.OpSelect? then RecvResult(false, st.pick, v, true) else RecvResult(true, 0, v, true)
  }

  /** The running goroutine goes on, with v from c, or having given v to c. */
  predicate TakesNow(s: S, st: Step, t: S, c: Cid, v: Val) {
    && s.cur.Some? && s.cur.value in t.gors && !t.gors[s.cur.value].asleep
    && AsksRecv(st, c)
    && R.ToldReceived(t.gors[s.cur.value].result, !st.OpSelect?, if st.OpSelect? then st.pick else 0, v, true)
  }

  predicate GivesNow(s: S, st: Step, t: S, c: Cid, v: Val) {
    && s.cur.Some? && s.cur.value in t.gors && !t.gors[s.cur.value].asleep
    && AsksSend(st, c, v) && (st.OpSelect? ==> t.gors[s.cur.value].result == Selected(st.pick))
  }

  /** A parked goroutine goes on and is told that it has received v from c, or that its v was sent. */
  ghost predicate TakenBy(s: S, t: S, c: Cid, v: Val, g: Gid, i: nat) {
    && Receives(s, Entry(g, i), c) && g in t.gors && !t.gors[g].asleep
    && R.ToldReceived(t.gors[g].result, s.gors[g].plain, i, v, true)
  }

  ghost predicate GivenBy(s: S, t: S, c: Cid, v: Val, g: Gid, i: nat) {
    && Sends(s, Entry(g, i), c) && s.gors[g].cases[i].v == v && g in t.gors && !t.gors[g].asleep
    && R.ToldSent(t.gors[g].result, s.gors[g].plain, i, false)
  }

  ghost predicate Takes(s: S, st: Step, t: S, c: Cid, v: Val, g: Gid) {
    (s.cur == Some(g) && TakesNow(s, st, t, c, v)) || exists i :: TakenBy(s, t, c, v, g, i)
  }

  ghost predicate Gives(s: S, st: Step, t: S, c: Cid, v: Val, g: Gid) {
    (s.cur == Some(g) && GivesNow(s, st, t, c, v)) || exists i :: GivenBy(s, t, c, v, g, i)
  }

  /** The running goroutine, or the first one that waits. */
  predicate Next(s: S, q: seq<Entry>, g: Gid) {
    s.cur == Some(g) || (q != [] && q[0].g == g)
  }

  /** Either nothing is taken from c and nobody is told that he has taken anything, or one value is, by
      one goroutine, and nobody else is told that he has taken anything. */
  ghost predicate OneTaker(s: S, st: Step, t: S, c: Cid)
    requires c in s.chans && c in t.chans
  {
    || (t.chans[c].received == s.chans[c].received && forall g, v :: !Takes(s, st, t, c, v, g))
    || exists g, v ::
         && Takes(s, st, t, c, v, g) && t.chans[c].received == s.chans[c].received + [v]
         && Next(s, s.chans[c].recvQ, g)
         && forall h, w | Takes(s, st, t, c, w, h) :: h == g && w == v
  }

  ghost predicate OneGiver(s: S, st: Step, t: S, c: Cid)
    requires c in s.chans && c in t.chans
  {
    || (t.chans[c].sent == s.chans[c].sent && forall g, v :: !Gives(s, st, t, c, v, g))
    || exists g, v ::
         && Gives(s, st, t, c, v, g) && t.chans[c].sent == s.chans[c].sent + [v]
         && Next(s, s.chans[c].sendQ, g)
         && forall h, w | Gives(s, st, t, c, w, h) :: h == g && w == v
  }

  ghost predicate Accounted(s: S, st: Step, t: S) {
    forall c | c in s.chans :: c in t.chans && OneTaker(s, st, t, c) && OneGiver(s, st, t, c)
  }

  ghost predicate AllWokenRightly(s: S, t: S) {
    forall g | Parked(s, g) && !Parked(t, g) :: Woken(s, t, g)
  }

  /** Nothing happens to a goroutine that is neither running nor woken. */
  ghost predicate OthersSame(s: S, t: S) {
    forall g | g in s.gors && s.cur != Some(g) ::
      g in t.gors && (t.gors[g] == s.gors[g] || (Parked(s, g) && !Parked(t, g)))
  }

  ghost predicate Delivered(s: S, st: Step, t: S) {
    Accounted(s, st, t) && AllWokenRightly(s, t) && OthersSame(s, t)
  }

  // ----- nobody takes, or one does -----

  lemma TakerFound(s: S, st: Step, t: S, c: Cid, g: Gid, v: Val)
    requires s.chans.Keys <= t.chans.Keys && c in s.chans
    requires forall d | d in s.chans && d != c :: t.chans[d].received == s.chans[d].received
    requires t.chans[c].received == s.chans[c].received + [v] && Takes(s, st, t, c, v, g)
             && Next(s, s.chans[c].recvQ, g)
    requires forall d, h, w | Takes(s, st, t, d, w, h) :: d == c && h == g && w == v
    ensures forall d | d in s.chans :: OneTaker(s, st, t, d)
  {
    hide Takes, Next;
  }

  lemma GiverFound(s: S, st: Step, t: S, c: Cid, g: Gid, v: Val)
    requires s.chans.Keys <= t.chans.Keys && c in s.chans
    requires forall d | d in s.chans && d != c :: t.chans[d].sent == s.chans[d].sent
    requires t.chans[c].sent == s.chans[c].sent + [v] && Gives(s, st, t, c, v, g) && Next(s, s.chans[c].sendQ, g)
    requires forall d, h, w | Gives(s, st, t, d, w, h) :: d == c && h == g && w == v
    ensures forall d | d in s.chans :: OneGiver(s, st, t, d)
  {
    hide Gives, Next;
  }

  lemma NoTaker(s: S, st: Step, t: S)
    requires s.chans.Keys <= t.chans.Keys && forall d | d in s.chans :: t.chans[d].received == s.chans[d].received
    requires forall d, h, w :: !Takes(s, st, t, d, w, h)
    ensures forall d | d in s.chans :: OneTaker(s, st, t, d)
  {
    hide Takes;
  }

  lemma NoGiver(s: S, st: Step, t: S)
    requires s.chans.Keys <= t.chans.Keys && forall d | d in s.chans :: t.chans[d].sent == s.chans[d].sent
    requires forall d, h, w :: !Gives(s, st, t, d, w, h)
    ensures forall d | d in s.chans :: OneGiver(s, st, t, d)
  {
    hide Gives;
  }

  /** Nothing is handed over and nobody is woken. */
  ghost predicate Untouched(s: S, st: Step, t: S) {
    && s.chans.Keys <= t.chans.Keys && OthersSame(s, t)
    && (forall c | c in s.chans :: t.chans[c].sent == s.chans[c].sent && t.chans[c].received == s.chans[c].received)
    && (forall g | Parked(s, g) :: Parked(t, g))
    && (forall c, v :: !TakesNow(s, st, t, c, v) && !GivesNow(s, st, t, c, v))
  }

  lemma UntouchedFine(s: S, st: Step, t: S)
    requires Untouched(s, st, t)
    ensures Delivered(s, st, t)
  {
    NobodyWoken(s, t);
    hide OthersSame, TakenBy, GivenBy, TakesNow, GivesNow;
    NoTaker(s, st, t);
    NoGiver(s, st, t);
  }

  lemma NobodyWoken(s: S, t: S)
    requires forall g | Parked(s, g) :: Parked(t, g)
    ensures forall c, v, g, i :: !TakenBy(s, t, c, v, g, i) && !GivenBy(s, t, c, v, g, i)
  { }

  /** Only goroutine g is woken, and histories move only on channel c. */
  ghost predicate OnlyWakes(s: S, t: S, g: Gid, c: Cid) {
    && s.chans.Keys <= t.chans.Keys && c in s.chans
    && (forall d | d in s.chans && d != c ::
          t.chans[d].sent == s.chans[d].sent && t.chans[d].received == s.chans[d].received)
    && (forall h | Parked(s, h) && h != g :: Parked(t, h))
    && OthersSame(s, t)
  }

  /** A parked goroutine that is not in a select waits for one thing. */
  ghost predicate PlainOne(s: S) {
    forall g | Parked(s, g) && s.gors[g].plain :: |s.gors[g].cases| == 1
  }

  lemma OnlyTaker(s: S, t: S, c: Cid, v: Val, e: Entry)
    requires PlainOne(s) && OnlyWakes(s, t, e.g, c) && Receives(s, e, c)
    requires e.g in t.gors && t.gors[e.g].result == RecvResult(s.gors[e.g].plain, e.i, v, true)
    ensures forall d, w, h, i | TakenBy(s, t, d, w, h, i) :: d == c && w == v && h == e.g && i == e.i
    ensures forall d, w, h, i :: !GivenBy(s, t, d, w, h, i)
  {
    hide OthersSame;
  }

  lemma OnlyGiver(s: S, t: S, c: Cid, e: Entry)
    requires PlainOne(s) && OnlyWakes(s, t, e.g, c) && Sends(s, e, c)
    requires e.g in t.gors && t.gors[e.g].result == SendResult(s.gors[e.g].plain, e.i, false)
    ensures forall d, w, h, i | GivenBy(s, t, d, w, h, i) ::
              d == c && w == s.gors[e.g].cases[e.i].v && h == e.g && i == e.i
    ensures forall d, w, h, i :: !TakenBy(s, t, d, w, h, i)
  {
    hide OthersSame;
  }

  lemma OneOperation(s: S, st: Step, t: S, c: Cid, v: Val)
    ensures GivesNow(s, st, t, c, v) ==> forall d, w :: !TakesNow(s, st, t, d, w)
    ensures GivesNow(s, st, t, c, v) ==> forall d, w | GivesNow(s, st, t, d, w) :: d == c && w == v
    ensures TakesNow(s, st, t, c, v) ==> forall d, w :: !GivesNow(s, st, t, d, w)
    ensures TakesNow(s, st, t, c, v) ==> forall d, w | TakesNow(s, st, t, d, w) :: d == c && w == v
  { }

  lemma OneWokenReceiver(s: S, st: Step, t: S, c: Cid, v: Val, e: Entry)
    requires PlainOne(s) && OnlyWakes(s, t, e.g, c) && Receives(s, e, c) && Next(s, s.chans[c].recvQ, e.g)
    requires t.chans[c].received == s.chans[c].received + [v] && t.chans[c].sent == s.chans[c].sent + [v]
    requires e.g in t.gors && !t.gors[e.g].asleep && t.gors[e.g].result == RecvResult(s.gors[e.g].plain, e.i, v, true)
    requires GivesNow(s, st, t, c, v)
    ensures Delivered(s, st, t)
  {
    OnlyTaker(s, t, c, v, e);
    OneOperation(s, st, t, c, v);
    assert e == Entry(e.g, e.i);
    assert TakenBy(s, t, c, v, e.g, e.i);
    assert WokenBy(s, t, e.g, e.i, c);
    assert s.cur.Some?;
    hide TakenBy, GivenBy, TakesNow, GivesNow, PlainOne, Receives, OthersSame, WokenBy;
    TakerFound(s, st, t, c, e.g, v);
    GiverFound(s, st, t, c, s.cur.value, v);
  }

  lemma OneWokenSender(s: S, st: Step, t: S, c: Cid, v: Val, u: Val, e: Entry)
    requires PlainOne(s) && OnlyWakes(s, t, e.g, c) && Sends(s, e, c) && s.gors[e.g].cases[e.i].v == v
    requires Next(s, s.chans[c].sendQ, e.g)
    requires t.chans[c].received == s.chans[c].received + [u] && t.chans[c].sent == s.chans[c].sent + [v]
    requires e.g in t.gors && !t.gors[e.g].asleep && t.gors[e.g].result == SendResult(s.gors[e.g].plain, e.i, false)
    requires TakesNow(s, st, t, c, u)
    ensures Delivered(s, st, t)
  {
    OnlyGiver(s, t, c, e);
    OneOperation(s, st, t, c, u);
    assert e == Entry(e.g, e.i);
    assert GivenBy(s, t, c, v, e.g, e.i);
    assert WokenBy(s, t, e.g, e.i, c);
    assert s.cur.Some?;
    hide TakenBy, GivenBy, TakesNow, GivesNow, PlainOne, Sends, OthersSame, WokenBy;
    TakerFound(s, st, t, c, s.cur.value, u);
    GiverFound(s, st, t, c, e.g, v);
  }

  /** Nobody is woken, and the running goroutine stores v, or takes it out of the buffer. */
  lemma OneStored(s: S, st: Step, t: S, c: Cid, v: Val)
    requires s.chans.Keys <= t.chans.Keys && c in s.chans && OthersSame(s, t)
    requires forall g | Parked(s, g) :: Parked(t, g)
    requires forall d | d in s.chans :: t.chans[d].received == s.chans[d].received
    requires forall d | d in s.chans && d != c :: t.chans[d].sent == s.chans[d].sent
    requires t.chans[c].sent == s.chans[c].sent + [v] && GivesNow(s, st, t, c, v)
    ensures Delivered(s, st, t)
  {
    NobodyWoken(s, t);
    OneOperation(s, st, t, c, v);
    assert s.cur.Some?;
    hide TakenBy, GivenBy, TakesNow, GivesNow, OthersSame;
    NoTaker(s, st, t);
    GiverFound(s, st, t, c, s.cur.value, v);
  }

  lemma OneUnstored(s: S, st: Step, t: S, c: Cid, v: Val)
    requires s.chans.Keys <= t.chans.Keys && c in s.chans && OthersSame(s, t)
    requires forall g | Parked(s, g) :: Parked(t, g)
    requires forall d | d in s.chans :: t.chans[d].sent == s.chans[d].sent
    requires forall d | d in s.chans && d != c :: t.chans[d].received == s.chans[d].received
    requires t.chans[c].received == s.chans[c].received + [v] && TakesNow(s, st, t, c, v)
    ensures Delivered(s, st, t)
  {
    NobodyWoken(s, t);
    OneOperation(s, st, t, c, v);
    assert s.cur.Some?;
    hide TakenBy, GivenBy, TakesNow, GivesNow, OthersSame;
    NoGiver(s, st, t);
    TakerFound(s, st, t, c, s.cur.value, v);
  }

  // ----- send and receive -----

  lemma WakeFacts(s: S, g: Gid, r: Result)
    requires g in s.gors
    ensures var t := Wake(s, g, r);
            && t.gors == s.gors[g := s.gors[g].(asleep := false, result := r)] && t.cur == s.cur
            && t.chans.Keys == s.chans.Keys
            && (forall c | c in s.chans ::
                  t.chans[c].sent == s.chans[c].sent && t.chans[c].received == s.chans[c].received
                                           && t.chans[c].closed == s.chans[c].closed)
  { }

  lemma WakesOnly(s: S, g: Gid, r: Result, c: Cid, now: Chan, t: S)
    requires Running(s) && Parked(s, g) && c in s.chans && t.chans == Wake(s, g, r).chans[c := now]
    requires t.gors.Keys == s.gors.Keys
    requires forall h | h in s.gors && s.cur != Some(h) :: t.gors[h] == Wake(s, g, r).gors[h]
    ensures OnlyWakes(s, t, g, c)
  {
    hide Wake;
    WakeFacts(s, g, r);
    var w := Wake(s, g, r);
    assert forall h | h in s.gors && h != g && s.cur != Some(h) :: t.gors[h] == s.gors[h];
    assert g in s.gors && s.cur != Some(g) && t.gors[g] == w.gors[g] && !Parked(t, g);
    assert OthersSame(s, t);
    hide OthersSame;
  }

  /** u after a send of the running goroutine, by itself or as a case of a select. */
  function AsSent(s: S, st: Step, u: S): S
    requires s.cur.Some?
  {
    if st.OpSelect? then SetResultOf(u, s.cur.value, Selected(st.pick)) else u
  }

  lemma AsSentFacts(s: S, st: Step, u: S)
    requires s.cur.Some? && s.cur.value in u.gors
    ensures var t, g := AsSent(s, st, u), s.cur.value;
            && t.chans == u.chans && t.gors.Keys == u.gors.Keys
            && (forall h | h in u.gors && h != g :: t.gors[h] == u.gors[h])
            && t.gors[g].asleep == u.gors[g].asleep && t.gors[g].exit == u.gors[g].exit
            && (st.OpSelect? ==> t.gors[g].result == Selected(st.pick))
  { }

  lemma SendWakes(s: S, st: Step, c: Cid, v: Val, t: S)
    requires Inv(s) && Running(s) && c in s.chans && s.chans[c].recvQ != [] && AsksSend(st, c, v)
    requires Wakeable(s, Some(c)) && t == AsSent(s, st, Send(s, Some(c), v))
    ensures var e := s.chans[c].recvQ[0];
            && Receives(s, e, c) && OnlyWakes(s, t, e.g, c) && GivesNow(s, st, t, c, v)
            && t.chans[c].received == s.chans[c].received + [v] && t.chans[c].sent == s.chans[c].sent + [v]
            && e.g in t.gors && !t.gors[e.g].asleep && t.gors[e.g].result == RecvResult(s.gors[e.g].plain, e.i, v, true)
  {
    var e := s.chans[c].recvQ[0];
    assert Receives(s, e, c);
    SendIsHandOver(s, c, v);
    var r := RecvResult(s.gors[e.g].plain, e.i, v, true);
    WakeFacts(s, e.g, r);
    AsSentFacts(s, st, Send(s, Some(c), v));
    assert e.g != s.cur.value;
    hide Inv, Wakeable, Receives, Send, Wake, OnlyWakes, AsSent, AsksSend;
    WakesOnly(s, e.g, r, c, t.chans[c], t);
  }

  lemma SendStored(s: S, st: Step, c: Cid, v: Val, t: S)
    requires Running(s) && c in s.chans && AsksSend(st, c, v) && s.chans[c].recvQ == []
             && |s.chans[c].buf| < s.chans[c].cap
    requires Wakeable(s, Some(c)) && t == AsSent(s, st, Send(s, Some(c), v))
    ensures Delivered(s, st, t)
  {
    hide Wakeable, Delivered, AsSent, AsksSend;
    AsSentFacts(s, st, Send(s, Some(c), v));
    OneStored(s, st, t, c, v);
  }

  lemma SendParked(s: S, st: Step, c: Cid, v: Val, t: S)
    requires Running(s) && c in s.chans && AsksSend(st, c, v) && s.chans[c].recvQ == []
             && |s.chans[c].buf| >= s.chans[c].cap
    requires Wakeable(s, Some(c)) && t == AsSent(s, st, Send(s, Some(c), v))
    ensures Untouched(s, st, t)
  {
    hide Wakeable, Push, AsSent, AsksSend, AsksRecv;
    PushAppends(s.chans, s.cur.value, [SendCase(Some(c), v)], 0);
    AsSentFacts(s, st, Send(s, Some(c), v));
  }

  lemma InvPlainOne(s: S)
    requires Inv(s)
    ensures PlainOne(s)
  { }

  /** A send gives its value to the first receiver that waits, or stores it, or parks. */
  lemma SendDelivers(s: S, st: Step, c: Cid, v: Val, t: S)
    requires Inv(s) && Running(s) && c in s.chans && !s.chans[c].closed && AsksSend(st, c, v)
    requires Wakeable(s, Some(c)) && t == AsSent(s, st, Send(s, Some(c), v))
    ensures Delivered(s, st, t)
  {
    hide Delivered, AsksSend, Send, Wakeable, OnlyWakes, Receives, GivesNow, Untouched;
    if s.chans[c].recvQ != [] {
      SendWakes(s, st, c, v, t);
      InvPlainOne(s);
      hide Inv, PlainOne;
      OneWokenReceiver(s, st, t, c, v, s.chans[c].recvQ[0]);
    } else if |s.chans[c].buf| < s.chans[c].cap {
      SendStored(s, st, c, v, t);
    } else {
      SendParked(s, st, c, v, t);
      UntouchedFine(s, st, t);
    }
  }

  lemma RecvShape(s: S, st: Step, c: Cid, t: S)
    requires Running(s) && c in s.chans && s.chans[c].sendQ != [] && Wakeable(s, Some(c))
    requires forall e | e in s.chans[c].sendQ :: e.g != s.cur.value
    requires t == Recv(s, Some(c), !st.OpSelect?, if st.OpSelect? then st.pick else 0)
    ensures var e := s.chans[c].sendQ[0]; var v := s.gors[e.g].cases[e.i].v; var u := (s.chans[c].buf + [v])[0];
            var w := Wake(s, e.g, SendResult(s.gors[e.g].plain, e.i, false));
            && c in t.chans && t.chans == w.chans[c := t.chans[c]] && t.gors.Keys == s.gors.Keys
            && (forall h | h in s.gors && s.cur != Some(h) :: t.gors[h] == w.gors[h])
            && t.chans[c].received == s.chans[c].received + [u] && t.chans[c].sent == s.chans[c].sent + [v]
            && t.gors[s.cur.value] == w.gors[s.cur.value].(result := AskedResult(st, u))
  {
    RecvIsPassed(s, c, !st.OpSelect?, if st.OpSelect? then st.pick else 0);
    hide Recv, Refill, DropAll, Wakeable;
  }

  lemma RecvWakes(s: S, st: Step, c: Cid, t: S)
    requires Inv(s) && Running(s) && c in s.chans && s.chans[c].sendQ != [] && Wakeable(s, Some(c)) && AsksRecv(st, c)
    requires forall e | e in s.chans[c].sendQ :: e.g != s.cur.value
    requires t == Recv(s, Some(c), !st.OpSelect?, if st.OpSelect? then st.pick else 0)
    ensures var e := s.chans[c].sendQ[0]; var v := s.gors[e.g].cases[e.i].v; var u := (s.chans[c].buf + [v])[0];
            && Sends(s, e, c) && OnlyWakes(s, t, e.g, c)
            && t.chans[c].received == s.chans[c].received + [u] && t.chans[c].sent == s.chans[c].sent + [v]
            && e.g in t.gors && !t.gors[e.g].asleep && t.gors[e.g].result == SendResult(s.gors[e.g].plain, e.i, false)
            && TakesNow(s, st, t, c, u)
  {
    var e := s.chans[c].sendQ[0];
    assert Sends(s, e, c);
    assert e.g != s.cur.value && Parked(s, e.g);
    hide Inv, Wakeable, Recv, Wake, OnlyWakes, AsksRecv, Sends;
    RecvShape(s, st, c, t);
    var r := SendResult(s.gors[e.g].plain, e.i, false);
    WakeFacts(s, e.g, r);
    WakesOnly(s, e.g, r, c, t.chans[c], t);
  }

  lemma RecvStored(s: S, st: Step, c: Cid, t: S)
    requires Running(s) && c in s.chans && AsksRecv(st, c) && Wakeable(s, Some(c)) && s.chans[c].sendQ == []
    requires t == Recv(s, Some(c), !st.OpSelect?, if st.OpSelect? then st.pick else 0)
    requires s.chans[c].buf != []
    ensures Delivered(s, st, t)
  {
    hide Delivered, Wakeable, AsksRecv;
    assert Refill(s, c) == s;
    OneUnstored(s, st, t, c, s.chans[c].buf[0]);
  }

  lemma RecvEmptyShape(s: S, c: Cid, plain: bool, i: nat, t: S)
    requires Running(s) && c in s.chans && Wakeable(s, Some(c)) && s.chans[c].sendQ == [] && s.chans[c].buf == []
    requires t == Recv(s, Some(c), plain, i)
    ensures s.chans.Keys <= t.chans.Keys && s.gors.Keys == t.gors.Keys
    ensures forall d | d in s.chans :: t.chans[d].sent == s.chans[d].sent && t.chans[d].received == s.chans[d].received
    ensures forall g | g in s.gors && s.cur != Some(g) :: t.gors[g] == s.gors[g]
    ensures t.gors[s.cur.value].asleep || t.gors[s.cur.value].result == RecvResult(plain, i, ZERO, false)
  {
    hide Push, Wakeable;
    assert Refill(s, c) == s;
    hide Refill;
    PushAppends(s.chans, s.cur.value, [RecvCase(Some(c))], 0);
  }

  /** A receive from an empty channel parks, or gets zero and false. */
  lemma RecvEmpty(s: S, st: Step, c: Cid, t: S)
    requires Running(s) && c in s.chans && AsksRecv(st, c) && Wakeable(s, Some(c)) && s.chans[c].sendQ == []
    requires t == Recv(s, Some(c), !st.OpSelect?, if st.OpSelect? then st.pick else 0)
    requires s.chans[c].buf == []
    ensures Untouched(s, st, t)
  {
    hide Recv, Wakeable;
    RecvEmptyShape(s, c, !st.OpSelect?, if st.OpSelect? then st.pick else 0, t);
    NotBoth(st, c);
    hide AsksRecv, AsksSend;
  }

  lemma NotBoth(st: Step, c: Cid)
    requires AsksRecv(st, c)
    ensures forall d, v :: !AsksSend(st, d, v)
  { }

  /** A receive takes the oldest value, and lets the first sender that waits go on; or it parks, or the
      channel is closed. */
  lemma RecvDelivers(s: S, st: Step, c: Cid, t: S)
    requires Inv(s) && Running(s) && c in s.chans && AsksRecv(st, c) && Wakeable(s, Some(c))
    requires forall e | e in s.chans[c].sendQ :: e.g != s.cur.value
    requires t == Recv(s, Some(c), !st.OpSelect?, if st.OpSelect? then st.pick else 0)
    ensures Delivered(s, st, t)
  {
    var ch := s.chans[c];
    assert ch.sendQ != [] ==>
             var e := ch.sendQ[0];
             e.g in s.gors && e.i < |s.gors[e.g].cases| && s.gors[e.g].cases[e.i].SendCase?;
    hide Delivered, AsksRecv, Recv, Wakeable, OnlyWakes, Sends, TakesNow, Untouched;
    if ch.sendQ != [] {
      var e := ch.sendQ[0];
      RecvWakes(s, st, c, t);
      InvPlainOne(s);
      hide Inv, PlainOne;
      OneWokenSender(s, st, t, c, s.gors[e.g].cases[e.i].v, (ch.buf + [s.gors[e.g].cases[e.i].v])[0], e);
    } else if ch.buf != [] {
      RecvStored(s, st, c, t);
    } else {
      RecvEmpty(s, st, c, t);
      UntouchedFine(s, st, t);
    }
  }

  // ----- close -----

  ghost predicate Told(s: S, t: S, g: Gid, i: nat, c: Cid) {
    && g in s.gors && g in t.gors
    && ((Sends(s, Entry(g, i), c) && s.gors[g].plain && t.gors[g].result == SendResult(true, i, true))
        || (Receives(s, Entry(g, i), c) && t.gors[g].result == RecvResult(s.gors[g].plain, i, ZERO, false)))
  }

  /** What $close has done so far: the goroutines that were woken had a case on c and were told, and
      the others and the histories are as before. */
  ghost predicate Closing(s: S, t: S, c: Cid) {
    && t.chans.Keys == s.chans.Keys
    && (forall d | d in s.chans :: t.chans[d].sent == s.chans[d].sent && t.chans[d].received == s.chans[d].received
                                   && t.chans[d].closed == s.chans[d].closed)
    && t.gors.Keys == s.gors.Keys
    && (forall g | g in s.gors && (Parked(t, g) || !Parked(s, g)) :: t.gors[g] == s.gors[g])
    && (forall g | Parked(s, g) && !Parked(t, g) :: exists i :: Told(s, t, g, i, c))
  }

  lemma ClosingTrans(s: S, u: S, t: S, c: Cid)
    requires Closing(s, u, c) && Closing(u, t, c)
    ensures Closing(s, t, c)
  {
    forall g | Parked(s, g) && !Parked(t, g) ensures exists i :: Told(s, t, g, i, c) {
      if Parked(u, g) {
        var i :| Told(u, t, g, i, c);
        assert Told(s, t, g, i, c);
      } else {
        var i :| Told(s, u, g, i, c);
        assert Told(s, t, g, i, c);
      }
    }
  }

  lemma ClosingWake(s: S, c: Cid, e: Entry, r: Result)
    requires (Sends(s, e, c) && s.gors[e.g].plain && r == SendResult(s.gors[e.g].plain, e.i, true))
          || (Receives(s, e, c) && r == RecvResult(s.gors[e.g].plain, e.i, ZERO, false))
    ensures Closing(s, Wake(s, e.g, r), c)
  {
    WakeFacts(s, e.g, r);
    var t := Wake(s, e.g, r);
    hide Wake;
    assert e == Entry(e.g, e.i);
    assert Told(s, t, e.g, e.i, c);
  }

  lemma StillPlain(s: S, g: Gid, r: Result, c: Cid)
    requires OnlyPlainSenders(s, c) && g in s.gors
    ensures OnlyPlainSenders(Wake(s, g, r), c)
  { }

  lemma {:induction false} ClosingSendersOk(s: S, c: Cid)
    requires Core(s) && CurAwake(s) && c in s.chans && OnlyPlainSenders(s, c)
    ensures Closing(s, CloseSenders(s, c), c)
    decreases |s.chans[c].sendQ|
  {
    var q := s.chans[c].sendQ;
    if q != [] {
      assert Sends(s, q[0], c);
      var r := SendResult(s.gors[q[0].g].plain, q[0].i, true);
      assert q[0] in s.chans[c].sendQ + s.chans[c].recvQ;
      StillPlain(s, q[0].g, r, c);
      ClosingWake(s, c, q[0], r);
      hide Core, Closing, Told, OnlyPlainSenders, Sends;
      WakeHead(s, c, q[0], r);
      DropShorter(q, q[0].g);
      ClosingSendersOk(Wake(s, q[0].g, r), c);
      ClosingTrans(s, Wake(s, q[0].g, r), CloseSenders(s, c), c);
    }
  }

  lemma {:induction false} ClosingReceiversOk(s: S, c: Cid)
    requires Core(s) && CurAwake(s) && c in s.chans
    ensures Closing(s, CloseReceivers(s, c), c)
    decreases |s.chans[c].recvQ|
  {
    var q := s.chans[c].recvQ;
    if q != [] {
      assert Receives(s, q[0], c);
      var r := RecvResult(s.gors[q[0].g].plain, q[0].i, ZERO, false);
      assert q[0] in s.chans[c].sendQ + s.chans[c].recvQ;
      hide Core, Closing, Told;
      WakeHead(s, c, q[0], r);
      DropShorter(q, q[0].g);
      ClosingWake(s, c, q[0], r);
      ClosingReceiversOk(Wake(s, q[0].g, r), c);
      ClosingTrans(s, Wake(s, q[0].g, r), CloseReceivers(s, c), c);
    }
  }

  /** $close wakes exactly the goroutines parked on the channel, and tells each that it is closed. */
  lemma CloseDelivers(s: S, st: Step, c: Cid)
    requires Inv(s) && CurAwake(s) && c in s.chans && OnlyPlainSenders(s, c) && (st.OpClose? || st.OpFire?)
    requires forall k | 0 <= k < |s.timers| :: s.timers[k] != CloseChan(c)
    ensures Delivered(s, st, Close(s, c))
    ensures forall e | e in s.chans[c].sendQ + s.chans[c].recvQ :: e.g in Close(s, c).gors && !Parked(Close(s, c), e.g)
    ensures forall g | Parked(s, g) && !Parked(Close(s, c), g) :: exists i :: Told(s, Close(s, c), g, i, c)
  {
    hide Delivered, Told, Close, Parked, Sends, Receives;
    InvPlainOne(s);
    var s1, t := WithChan(s, c, s.chans[c].(closed := true)), Close(s, c);
    CloseClosing(s, c);
    ClosedIn(s, c, t);
    hide Inv;
    ClosingIsWaking(s, st, s1, t, c);
  }

  lemma CloseClosing(s: S, c: Cid)
    requires Inv(s) && CurAwake(s) && c in s.chans && OnlyPlainSenders(s, c)
    requires forall k | 0 <= k < |s.timers| :: s.timers[k] != CloseChan(c)
    ensures Closing(WithChan(s, c, s.chans[c].(closed := true)), Close(s, c), c)
  {
    InvParts(s);
    ClosedCore(s, c);
    var s1 := WithChan(s, c, s.chans[c].(closed := true));
    var s2 := CloseSenders(s1, c);
    hide Core, Closing;
    CloseSendersInv(s1, c);
    ClosingSendersOk(s1, c);
    ClosingReceiversOk(s2, c);
    ClosingTrans(s1, s2, Close(s, c), c);
  }

  lemma ClosedIn(s: S, c: Cid, t: S)
    requires Inv(s) && CurAwake(s) && c in s.chans && t == Close(s, c)
    requires forall k | 0 <= k < |s.timers| :: s.timers[k] != CloseChan(c)
    requires Closing(WithChan(s, c, s.chans[c].(closed := true)), t, c)
    ensures forall e | e in s.chans[c].sendQ + s.chans[c].recvQ :: e.g in t.gors && !Parked(t, e.g)
  {
    var s1 := WithChan(s, c, s.chans[c].(closed := true));
    forall e | e in s.chans[c].sendQ + s.chans[c].recvQ ensures Sends(s1, e, c) || Receives(s1, e, c) {
      hide RunQueue, ChansOk, Counts, TimersOk, Close, Closing;
    }
    hide Core, Closing, Sends, Receives;
    CloseInv(s, c);
    InvParts(t);
    StillParked(s1, t, c);
  }

  lemma StillParked(s: S, t: S, c: Cid)
    requires Closing(s, t, c) && Core(t) && c in t.chans && t.chans[c].sendQ == [] && t.chans[c].recvQ == []
    ensures forall e | Sends(s, e, c) || Receives(s, e, c) :: e.g in t.gors && !Parked(t, e.g)
  {
    hide RunQueue, ChansOk, Counts, TimersOk;
    forall e | Sends(s, e, c) || Receives(s, e, c) ensures !Parked(t, e.g) {
      assert Parked(t, e.g) ==> Sends(t, e, c) || Receives(t, e, c);
    }
  }

  lemma ClosingIsWaking(s: S, st: Step, s1: S, t: S, c: Cid)
    requires PlainOne(s) && c in s.chans && s1 == WithChan(s, c, s.chans[c].(closed := true)) && Closing(s1, t, c)
    requires st.OpClose? || st.OpFire?
    ensures Delivered(s, st, t)
    ensures forall g | Parked(s, g) && !Parked(t, g) :: exists i :: Told(s, t, g, i, c)
  {
    WokenAreTold(s, s1, t, c);
    ToldIsNotServed(s, t, c);
    hide TakenBy, GivenBy, Told, Woken, Sends, Receives;
    NoTaker(s, st, t);
    NoGiver(s, st, t);
  }

  lemma WokenAreTold(s: S, s1: S, t: S, c: Cid)
    requires c in s.chans && s1 == WithChan(s, c, s.chans[c].(closed := true)) && Closing(s1, t, c)
    ensures forall g | Parked(s, g) && !Parked(t, g) :: Woken(s, t, g) && exists i :: Told(s, t, g, i, c)
  {
    forall g | Parked(s, g) && !Parked(t, g) ensures Woken(s, t, g) && exists i :: Told(s, t, g, i, c) {
      assert Parked(s1, g);
      var i :| Told(s1, t, g, i, c);
      assert Told(s, t, g, i, c);
      assert WokenBy(s, t, g, i, c);
    }
  }

  /** Nobody who is told that the channel is closed takes it for a value. */
  lemma ToldIsNotServed(s: S, t: S, c: Cid)
    requires forall g | Parked(s, g) && !Parked(t, g) :: exists i :: Told(s, t, g, i, c)
    ensures forall d, v, g, i :: !TakenBy(s, t, d, v, g, i) && !GivenBy(s, t, d, v, g, i)
  {
    forall d, v, g, i ensures !TakenBy(s, t, d, v, g, i) && !GivenBy(s, t, d, v, g, i) {
      if Parked(s, g) && !Parked(t, g) {
        var j :| Told(s, t, g, j, c);
        ToldDiffers(s, t, g, j, c);
      }
    }
  }

  lemma ToldDiffers(s: S, t: S, g: Gid, j: nat, c: Cid)
    requires Told(s, t, g, j, c)
    ensures forall d, v, i :: !TakenBy(s, t, d, v, g, i) && !GivenBy(s, t, d, v, g, i)
  { }

  // ----- every step -----

  lemma SelectUntouched(s: S, comms: seq<Comm>, pick: nat)
    requires Running(s) && CommsOk(s, comms) && !AnyReady(s, comms)
    ensures Untouched(s, OpSelect(comms, pick), Select(s, comms, pick))
  {
    PushAppends(s.chans, s.cur.value, comms, 0);
    hide Push, AnyReady, CommsOk;
  }

  lemma SelectDelivers(s: S, comms: seq<Comm>, pick: nat)
    requires Inv(s) && Enabled(s, OpSelect(comms, pick)) && CommsOk(s, comms)
    ensures Delivered(s, OpSelect(comms, pick), Select(s, comms, pick))
    ensures R.Told(s, OpSelect(comms, pick), Select(s, comms, pick))
  {
    R.SelectTells(s, comms, pick);
    hide Inv, Delivered, Send, Recv, Wakeable, Untouched;
    var st, t := OpSelect(comms, pick), Select(s, comms, pick);
    if AnyReady(s, comms) {
      match comms[pick]
      case RecvCase(c) => RecvDelivers(s, st, c.value, t);
      case SendCase(c, v) =>
        assert OpenForSend(s, comms[pick].c);
        SendDelivers(s, st, c.value, v, t);
    } else {
      SelectUntouched(s, comms, pick);
      hide Select;
      UntouchedFine(s, st, t);
    }
  }

  lemma SleepUntouched(s: S, c: Cid)
    requires Inv(s) && Running(s) && c !in s.chans
    ensures Untouched(s, OpSleep(c), Sleep(s, c))
  {
    hide Inv;
    var s1 := SetTimeout(MakeChan(s, c, 0, true), CloseChan(c));
    assert Refill(s1, c) == s1;
    PushAppends(s1.chans, s.cur.value, [RecvCase(Some(c))], 0);
  }

  lemma SameView(s: S, st: Step, s1: S, t: S)
    requires s1.gors == s.gors && s1.chans == s.chans && s1.cur == s.cur
    requires Delivered(s1, st, t)
    ensures Delivered(s, st, t)
  {
    assert forall g :: Parked(s1, g) == Parked(s, g);
    assert forall e, c :: Sends(s1, e, c) == Sends(s, e, c) && Receives(s1, e, c) == Receives(s, e, c);
    hide Parked, Sends, Receives;
    SameTakers(s, st, s1, t);
    SameWoken(s, s1, t);
    SameAccounts(s, st, s1, t);
    hide Accounted, Woken;
  }

  lemma SameAccounts(s: S, st: Step, s1: S, t: S)
    requires s1.chans == s.chans && s1.cur == s.cur && Accounted(s1, st, t)
    requires forall c, v, g :: Takes(s1, st, t, c, v, g) == Takes(s, st, t, c, v, g)
    requires forall c, v, g :: Gives(s1, st, t, c, v, g) == Gives(s, st, t, c, v, g)
    ensures Accounted(s, st, t)
  {
    hide Takes, Gives;
    forall c | c in s.chans ensures c in t.chans && OneTaker(s, st, t, c) { assert OneTaker(s1, st, t, c); }
    forall c | c in s.chans ensures c in t.chans && OneGiver(s, st, t, c) { assert OneGiver(s1, st, t, c); }
    hide OneTaker, OneGiver;
  }

  lemma SameWoken(s: S, s1: S, t: S)
    requires s1.gors == s.gors && s1.chans == s.chans
    requires forall e, c :: Sends(s1, e, c) == Sends(s, e, c) && Receives(s1, e, c) == Receives(s, e, c)
    ensures forall g | Woken(s1, t, g) :: Woken(s, t, g)
  {
    hide Sends, Receives;
    assert forall g, i, c :: WokenBy(s1, t, g, i, c) == WokenBy(s, t, g, i, c);
    hide WokenBy;
  }

  lemma SameTakers(s: S, st: Step, s1: S, t: S)
    requires s1.gors == s.gors && s1.cur == s.cur
    requires forall e, c :: Sends(s1, e, c) == Sends(s, e, c) && Receives(s1, e, c) == Receives(s, e, c)
    ensures forall c, v, g :: Takes(s1, st, t, c, v, g) == Takes(s, st, t, c, v, g)
    ensures forall c, v, g :: Gives(s1, st, t, c, v, g) == Gives(s, st, t, c, v, g)
  {
    hide Sends, Receives;
    assert forall c, v, g, i :: TakenBy(s1, t, c, v, g, i) == TakenBy(s, t, c, v, g, i);
    assert forall c, v, g, i :: GivenBy(s1, t, c, v, g, i) == GivenBy(s, t, c, v, g, i);
    assert forall c, v :: TakesNow(s1, st, t, c, v) == TakesNow(s, st, t, c, v);
    assert forall c, v :: GivesNow(s1, st, t, c, v) == GivesNow(s, st, t, c, v);
    hide TakenBy, GivenBy, TakesNow, GivesNow;
  }

  lemma FireDelivers(s: S, k: nat, g: Gid)
    requires Inv(s) && Enabled(s, OpFire(k, g)) && (s.timers[k].CloseChan? ==> s.timers[k].c in s.chans)
    ensures Delivered(s, OpFire(k, g), Fire(s, k, g))
  {
    var st := OpFire(k, g);
    WithoutTimerInv(s, k, false);
    var s1 := WithoutTimer(s, k, false);
    var t := Fire(s, k, g);
    match s.timers[k]
    case CloseChan(c) =>
      TimerChan(s, k);
      hide Inv, Delivered, Close;
      CloseDelivers(s1, st, c);
      SameView(s, st, s1, t);
    case Start(periodic) =>
      hide Inv, Delivered, NewGoroutine, Untouched;
      NewUntouched(s, st, if periodic then SetTimeout(s1, Start(true)) else s1, g);
      UntouchedFine(s, st, t);
  }

  /** Nobody sends on the private channel of a sleeper. */
  lemma TimerChan(s: S, k: nat)
    requires Inv(s) && k < |s.timers| && s.timers[k].CloseChan?
    ensures OnlyPlainSenders(WithoutTimer(s, k, false), s.timers[k].c)
  {
    var c := s.timers[k].c;
    assert ChanOk(s.chans[c]);
  }

  lemma NewUntouched(s: S, st: Step, s1: S, g: Gid)
    requires s1.gors == s.gors && s1.chans == s.chans && g !in s.gors && st.OpFire?
    ensures Untouched(s, st, NewGoroutine(s1, g))
  { }

  lemma OtherStepUntouched(s: S, st: Step)
    requires Inv(s) && Enabled(s, st)
    requires st.OpGo? || st.OpMake? || st.OpStartTimer? || st.OpStopTimer? || st.OpExit? || st.OpFinish?
             || st.OpRunNext?
    ensures Untouched(s, st, Do(s, st))
  {
    hide Inv;
  }

  /** Whatever the next step is: every value that is handed out is taken by exactly one goroutine and every
      value that counts as sent is given by exactly one, each of them running or first in its queue, and
      nobody else is told so; every goroutine that is woken is woken by one of its cases and told what
      happened to it; the running one is told what its operation came to; and nothing happens to any other. */
  lemma StepDelivers(s: S, st: Step)
    requires Inv(s) && Enabled(s, st)
    ensures Delivered(s, st, Do(s, st)) && R.Told(s, st, Do(s, st))
  {
    hide Inv, Delivered, R.Told, Untouched, Wakeable, CommsOk, Send, Recv, Select, Fire, AnyReady;
    R.StepTells(s, st);
    StepInv(s, st);
    var t := Do(s, st);
    match st
    case OpSend(c, v) => OperationDelivers(s, st);
    case OpRecv(c) => OperationDelivers(s, st);
    case OpClose(c) => R.NoTimerCloses(s, c); CloseDelivers(s, st, c);
    case OpSelect(comms, pick) => SelectDelivers(s, comms, pick);
    case OpSleep(c) => SleepUntouched(s, c); UntouchedFine(s, st, t);
    case OpFire(k, g) => FireDelivers(s, k, g);
    case _ => OtherStepUntouched(s, st); UntouchedFine(s, st, t);
  }

  lemma OperationDelivers(s: S, st: Step)
    requires Inv(s) && Enabled(s, st) && Safe(s, st) && (st.OpSend? || st.OpRecv?)
    ensures Delivered(s, st, Do(s, st))
  {
    hide Inv, Delivered, Send, Recv, Untouched, Running, Wakeable;
    var t := Do(s, st);
    match st
    case OpSend(c, v) =>
      if c.Some? {
        SendDelivers(s, st, c.value, v, t);
      } else {
        NilUntouched(s, v);
        UntouchedFine(s, st, t);
      }
    case OpRecv(c) =>
      if c.Some? {
        RecvDelivers(s, st, c.value, t);
      } else {
        NilUntouched(s, 0);
        UntouchedFine(s, st, t);
      }
  }

  /** A nil channel parks for good. */
  lemma NilUntouched(s: S, v: Val)
    requires Running(s) && Wakeable(s, None)
    ensures Untouched(s, OpSend(None, v), Send(s, None, v))
    ensures Untouched(s, OpRecv(None), Recv(s, None, true, 0))
  {
    PushAppends(s.chans, s.cur.value, [SendCase(None, v)], 0);
    PushAppends(s.chans, s.cur.value, [RecvCase(None)], 0);
    hide Push;
  }
}
