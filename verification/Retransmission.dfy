/** When the oldest frameset is transmitted again, and when a connection gives up waiting for its ACK. */
module Retransmission {
  import opened FrameSets
  import opened FsProtocolSpec
  import opened FsProtocolInvariants
  import opened FsProtocolShutdown
  import opened Connection
  import opened Trails
  import Q = FsQueueSpec

  // ---------- One transmission ----------

  /** In these states a connection is given up when an ACK does not come. */
  predicate GivesUpIn(state: State) {
    state != NONE && state != UP
  }

  /** A retransmission is due. */
  predicate Due(e: Elem, now: nat) {
    0 < e.nextRexmit < now
  }

  /** An ACK timeout transmits nothing; it closes the connection in the states in which it gives up. */
  lemma TimeoutEffect<K>(f: Focus<K>, now: nat, cfg: Config)
    ensures var g := Fsa(f, AckTimedOut, None, now, cfg);
            g.wire == f.wire && if GivesUpIn(f.e.state) then Closed(f, g) else g == f
  {
    hide Send1, AckMe, Settle, NextState, ActionsFor, Closed, Fsa;
    AckTimedOutTable(f.e.state);
    AckTimedOutEffect(f, now, cfg);
    var f1, f2 := FsaUnfolds(f, AckTimedOut, None, now, cfg);
    SettleSends(f, ActionsFor(f.e.state, AckTimedOut), NextState(f.e.state, AckTimedOut));
  }

  lemma SettleSends<K>(f: Focus<K>, act: Actions, next: State)
    ensures Settle(f, act, next).wire == f.wire
  {
    hide Remove;
  }

  /** What has been queued, and where the connection stands. */
  predicate SameStanding<K(==)>(f: Focus<K>, g: Focus<K>) {
    && g.me == f.me && g.sent == f.sent
    && g.e.outq == f.e.outq && g.e.inq == f.e.inq && g.e.state == f.e.state && g.e.shutTimer == f.e.shutTimer
  }

  lemma RexmitDue<K>(f: Focus<K>, now: nat, cfg: Config)
    requires f.e.outq.q != []
    ensures var g := Rexmit(f, now, cfg);
            && g.wire == f.wire + [Packet(f.me, f.e.outq.q[0])]
            && g.e.ackTimeout == (if now > f.e.ackTimeout then now + cfg.ackTimeout else f.e.ackTimeout)
            && if now > f.e.ackTimeout && GivesUpIn(f.e.state) then Closed(f, g)
               else SameStanding(f, g) && g.e.nextRexmit == now + cfg.rexmit
  {
    hide Fsa;
    var g := Transmit(f.(e := f.e.(nextRexmit := now + cfg.rexmit)), f.e.outq.q[0]);
    TimeoutEffect(g, now, cfg);
  }

  /** When a retransmission is due, the oldest frameset goes out last. The connection is closed exactly if the ACK
      timeout has passed in a state that gives up; otherwise it stands as it did, and the next retransmission is
      scheduled. */
  lemma DueRetransmits<K>(f: Focus<K>, now: nat, cfg: Config)
    requires Good(f, cfg) && f.e.outq.q != [] && Due(f.e, now)
    ensures var g := Xmit(f, now, cfg);
            && |g.wire| > |f.wire| && g.wire[|g.wire| - 1] == Packet(f.me, f.e.outq.q[0])
            && (g.e.outq.q == [] <==> now > f.e.ackTimeout && GivesUpIn(f.e.state))
            && g.e.ackTimeout == (if now > f.e.ackTimeout then now + cfg.ackTimeout else f.e.ackTimeout)
            && if now > f.e.ackTimeout && GivesUpIn(f.e.state) then Closed(f, g)
               else SameStanding(f, g) && g.e.nextRexmit == now + cfg.rexmit
  {
    hide Good, SendNew, Rexmit, Xmit, Sends;
    var f1 := XmitUnfolds(f, now, cfg);
    if |f.e.outq.q| < cfg.window {
      SendNewKeeps(f, 0, cfg);
      SendNewQuiet(f, 0);
    }
    RexmitDue(f1, now, cfg);
    assert |f1.wire| >= |f.wire| by { WireGrows(f, f1); }
    assert if now > f.e.ackTimeout && GivesUpIn(f.e.state) then Closed(f, Xmit(f, now, cfg)) else true by {
      if now > f.e.ackTimeout && GivesUpIn(f.e.state) { ClosedAfter(f, f1, Xmit(f, now, cfg)); }
    }
  }

  lemma WireGrows<K>(f: Focus<K>, g: Focus<K>)
    requires f == g || Quiet(f, g)
    ensures |g.wire| >= |f.wire|
  {
  }

  lemma ClosedAfter<K>(f: Focus<K>, g: Focus<K>, h: Focus<K>)
    requires (f == g || Quiet(f, g)) && Closed(g, h)
    ensures Closed(f, h)
  {
  }

  /** When none is due, nothing that has been sent before goes out, and the connection stands as it did. */
  lemma NotDueIsQuiet<K>(f: Focus<K>, now: nat, cfg: Config)
    requires Good(f, cfg) && !Due(f.e, now)
    ensures var g := Xmit(f, now, cfg);
            && SameStanding(f, g) && g.e.ackTimeout == f.e.ackTimeout && f.wire <= g.wire
            && (g.e.nextRexmit == if f.e.nextRexmit == 0 && f.e.outq.q != [] then now + cfg.rexmit else f.e.nextRexmit)
            && forall i :: |f.wire| <= i < |g.wire| ==>
                 g.wire[i].dest == f.me && g.wire[i].fs in f.e.outq.q && Unsent(f.e.lastSent, g.wire[i].fs)
  {
    hide Good, SendNew, Rexmit, Xmit, Unsent;
    var f1 := XmitUnfolds(f, now, cfg);
    if |f.e.outq.q| < cfg.window {
      SendNewKeeps(f, 0, cfg);
      SendNewQuiet(f, 0);
      SendNewIsNew(f, 0, cfg);
    }
  }

  /** SendNew sends only what lies above the last one sent. */
  lemma {:induction false} SendNewIsNew<K>(f: Focus<K>, i: nat, cfg: Config)
    requires Good(f, cfg) && i <= |f.e.outq.q| < cfg.window
    ensures var g := SendNew(f, i);
            f.wire <= g.wire && forall j :: |f.wire| <= j < |g.wire| ==>
              g.wire[j].dest == f.me && g.wire[j].fs in f.e.outq.q && Unsent(f.e.lastSent, g.wire[j].fs)
    decreases |f.e.outq.q| - i
  {
    hide Good;
    if i == |f.e.outq.q| {
    } else {
      var fs := f.e.outq.q[i];
      QueuedIsSent(f, cfg, i);
      if !Unsent(f.e.lastSent, fs) {
        SendNewIsNew(f, i + 1, cfg);
      } else {
        var h := Transmit(f, fs).(e := f.e.(lastSent := GetSeqno(fs)));
        NextSendable(f, i, cfg);
        SendNewIsNew(h, i + 1, cfg);
      }
    }
  }

  lemma NextSendable<K>(f: Focus<K>, i: nat, cfg: Config)
    requires Good(f, cfg) && i < |f.e.outq.q| < cfg.window && Unsent(f.e.lastSent, f.e.outq.q[i])
    ensures Good(Transmit(f, f.e.outq.q[i]).(e := f.e.(lastSent := GetSeqno(f.e.outq.q[i]))), cfg)
  {
    hide Q.InOk, SentOk, UnackedOk, ReadyOk;
    GoodFrame(f, Transmit(f, f.e.outq.q[i]).(e := f.e.(lastSent := GetSeqno(f.e.outq.q[i]))), cfg);
  }

  /** Operations that end with a transmission on an output queue that they do not shorten. */
  predicate Transmits<K>(f: Focus<K>, op: Op)
    requires Enabled(f, op)
  {
    match op
    case Send(_) => !InShutdown(f.e.state)
    case Arrive(fs) => fs.fstype != ACK && fs.fstype != CONNNAK
    case Read => f.e.inq.q[0].fstype != CONNSHUT
    case Tick => true
    case _ => false
  }

  /** The output queue, and the times that belong to it, before the transmission. */
  predicate Stands<K(==)>(f: Focus<K>, b: Focus<K>) {
    && b.me == f.me && |b.wire| >= |f.wire| && f.e.outq.q <= b.e.outq.q && b.e.nextRexmit == f.e.nextRexmit
    && (f.e.ackTimeout != 0 ==> b.e.ackTimeout == f.e.ackTimeout)
    && (f.e.state != NONE ==> b.e.state == f.e.state)
  }

  lemma TransmitsOn<K>(f: Focus<K>, op: Op, now: nat, cfg: Config) returns (b: Focus<K>)
    requires Good(f, cfg) && Enabled(f, op) && Transmits(f, op) && f.e.outq.q != []
    ensures Good(b, cfg) && Stands(f, b) && Step(f, op, now, cfg) == Xmit(b, now, cfg)
  {
    hide Good, AlmostGood, MarkDue, Xmit, Send1, Fsa, File, MarkReady, Append;
    match op {
      case Send(fs) =>
        var f1, f2 := Send1Unfolds(f, fs, now, cfg);
        StateKeepsGood(f, f1.e.state, cfg);
        AppendKeeps(f1, fs, now, cfg);
        AppendStands(f1, fs, now, cfg);
        b := f2;
      case Arrive(fs) =>
        FileKeeps(f, fs, now, cfg);
        MarkReadyKeeps(File(f, fs, now, cfg), fs, cfg);
        FileStands(f, fs, now, cfg);
        b := MarkReady(File(f, fs, now, cfg), fs);
      case Read =>
        DequeueKeeps(f, cfg);
        b := Dequeue(f);
      case Tick =>
        b := f;
    }
  }

  lemma AppendStands<K>(f: Focus<K>, fs: FrameSet, now: nat, cfg: Config)
    requires f.e.outq.q != []
    ensures Stands(f, Append(f, fs, now, cfg).0)
  {
  }

  lemma FileStands<K>(f: Focus<K>, fs: FrameSet, now: nat, cfg: Config)
    ensures Stands(f, MarkReady(File(f, fs, now, cfg), fs))
  {
    hide Q.InqSorted, Fsa, Compare, Precedes, AckSeqno;
    var f1 := f.(e := f.e.(inq := Q.InqSorted(f.e.inq, fs).0));
    StartOnlyMoves(f1, Some(fs), now, cfg);
    StartOnlyMoves(f1.(e := f1.e.(ackTimeout := now + cfg.ackTimeout)), Some(fs), now, cfg);
    if f1.e.lastAck.Some? { AckSeqnoEffect(f1, f1.e.lastAck.value); }
  }

  /** Sending, receiving and reading retransmit and give up as the timer does. */
  lemma StepRetransmits<K>(f: Focus<K>, op: Op, now: nat, cfg: Config)
    requires Good(f, cfg) && Enabled(f, op) && Transmits(f, op) && f.e.outq.q != [] && Due(f.e, now)
    ensures var g := Step(f, op, now, cfg);
            && |g.wire| > |f.wire| && g.wire[|g.wire| - 1] == Packet(f.me, f.e.outq.q[0])
            && (f.e.ackTimeout != 0 && f.e.state != NONE ==>
                  (g.e.outq.q == [] <==> now > f.e.ackTimeout && GivesUpIn(f.e.state)))
  {
    hide Good, Xmit, Transmits, Step;
    var b := TransmitsOn(f, op, now, cfg);
    DueRetransmits(b, now, cfg);
  }

  // ---------- Time ----------

  /** At this time of the clock no timer reaches further than its interval; and if output is queued, the ACK
      timeout is not over before its interval has passed since the queue became non-empty or an ACK last applied. */
  predicate Timely(e: Elem, since: nat, clock: nat, cfg: Config) {
    && since <= clock
    && e.nextRexmit <= clock + cfg.rexmit
    && e.ackTimeout <= clock + cfg.ackTimeout
    && (e.outq.q != [] ==> since + cfg.ackTimeout <= e.ackTimeout)
  }

  lemma XmitTimely<K>(f: Focus<K>, now: nat, cfg: Config, since: nat)
    requires Good(f, cfg) && Timely(f.e, since, now, cfg)
    ensures Timely(Xmit(f, now, cfg).e, since, now, cfg)
  {
    hide Good, Xmit;
    XmitKeeps(f, now, cfg);
    TimersSet(f, cfg);
    TimersSet(Xmit(f, now, cfg), cfg);
    if Due(f.e, now) {
      DueRetransmits(f, now, cfg);
    } else {
      NotDueIsQuiet(f, now, cfg);
    }
  }

  lemma TimersSet<K>(f: Focus<K>, cfg: Config)
    requires Good(f, cfg)
    ensures f.e.nextRexmit != 0 <==> f.e.outq.q != []
  {
  }

  lemma AppendTimely<K>(f: Focus<K>, fs: FrameSet, now: nat, cfg: Config, since: nat)
    requires Timely(f.e, since, now, cfg)
    ensures Timely(Append(f, fs, now, cfg).0.e, since, now, cfg)
  {
    hide Q.Enq, Q.Stamp;
  }

  lemma Send1Timely<K>(f: Focus<K>, fs: FrameSet, now: nat, cfg: Config, since: nat)
    requires Good(f, cfg) && Sendable(fs) && Timely(f.e, since, now, cfg)
    ensures Timely(Send1(f, fs, now, cfg).0.e, since, now, cfg)
  {
    hide Good, Xmit, Send1, Append;
    if InShutdown(f.e.state) {
      Send1Refuses(f, fs, now, cfg);
    } else {
      var f1, f2 := Send1Unfolds(f, fs, now, cfg);
      StateKeepsGood(f, f1.e.state, cfg);
      AppendKeeps(f1, fs, now, cfg);
      AppendTimely(f1, fs, now, cfg, since);
      XmitTimely(f2, now, cfg, since);
    }
  }

  lemma SettleTimely<K>(f: Focus<K>, act: Actions, next: State, since: nat, now: nat, cfg: Config)
    requires Timely(f.e, since, now, cfg)
    ensures Timely(Settle(f, act, next).e, since, now, cfg)
  {
    hide Remove;
  }

  lemma FsaTimely<K>(f: Focus<K>, input: Input, fs: Option<FrameSet>, now: nat, cfg: Config, since: nat)
    requires Good(f, cfg) && Timely(f.e, since, now, cfg)
    ensures Timely(Fsa(f, input, fs, now, cfg).e, since, now, cfg)
  {
    hide Good, Fsa, Send1, AckMe, Settle, NextState, ActionsFor;
    var f1, f2 := FsaUnfolds(f, input, fs, now, cfg);
    AckMeKeeps(f, fs, cfg);
    AckMeEffect(f, fs);
    Send1Timely(f1, ShutFrameSet(), now, cfg, since);
    SettleTimely(f2, ActionsFor(f.e.state, input), NextState(f.e.state, input), since, now, cfg);
  }

  /** An ACK applies: it is for the session of the output queue, and for an id that has been given out. */
  predicate Applies(u: Q.Queue, fs: FrameSet) {
    fs.fstype == ACK && Sequenced(fs)
    && GetSeqno(fs).value.session == u.session && GetSeqno(fs).value.reqid < u.next
  }

  lemma GoodOutq<K>(f: Focus<K>, cfg: Config)
    requires Good(f, cfg)
    ensures Q.OutOk(f.e.outq)
  {
  }

  lemma AppliesIff(u: Q.Queue, s: Seqno)
    requires Q.OutOk(u)
    ensures var (v, count) := Q.AckThrough(u, s);
            && (count >= 0 <==> s.session == u.session && s.reqid < u.next)
            && (count < 0 ==> v == u)
  {
    hide Q.OutOk, Q.AckThrough;
    Q.AckThroughOut(u, s);
  }

  lemma AckedTimely<K>(f: Focus<K>, fs: FrameSet, now: nat, cfg: Config, since: nat)
    requires Good(f, cfg) && fs.fstype == ACK && Sequenced(fs) && Timely(f.e, since, now, cfg)
    ensures var g := Acked(f, GetSeqno(fs).value, now, cfg);
            Timely(g.e, if Applies(f.e.outq, fs) then now else since, now, cfg)
  {
    hide Remove, Good, Q.AckThrough;
    assert Q.OutOk(f.e.outq) by { GoodOutq(f, cfg); }
    AppliesIff(f.e.outq, GetSeqno(fs).value);
  }

  lemma ReceiveAckTimely<K>(f: Focus<K>, fs: FrameSet, now: nat, cfg: Config, since: nat)
    requires Good(f, cfg) && fs.fstype == ACK && Timely(f.e, since, now, cfg)
    ensures Timely(ReceiveAck(f, fs, now, cfg).e, if Applies(f.e.outq, fs) then now else since, now, cfg)
  {
    hide Good, Xmit, Fsa, Q.AckThrough, Remove;
    if Sequenced(fs) {
      var s := GetSeqno(fs).value;
      var at := if Applies(f.e.outq, fs) then now else since;
      var g := Acked(f, s, now, cfg);
      AckedKeeps(f, s, now, cfg);
      AckedTimely(f, fs, now, cfg, since);
      XmitTimely(g, now, cfg, at);
      XmitKeeps(g, now, cfg);
      var h := Xmit(g, now, cfg);
      XmitEffect(g, now, cfg);
      AckTimeoutKeeps(h, 0, cfg);
      var h0 := h.(e := h.e.(ackTimeout := 0));
      if h.e.outq.q == [] { FsaTimely(h0, OutAllDone, Some(fs), now, cfg, at); }
    }
  }

  lemma FileTimely<K>(f: Focus<K>, fs: FrameSet, now: nat, cfg: Config, since: nat)
    requires Timely(f.e, since, now, cfg)
    ensures Timely(MarkReady(File(f, fs, now, cfg), fs).e, since, now, cfg)
  {
    hide Q.InqSorted, Fsa, Compare, Precedes, NextState, AckSeqno;
    var f1 := f.(e := f.e.(inq := Q.InqSorted(f.e.inq, fs).0));
    StartOnlyMoves(f1, Some(fs), now, cfg);
    StartOnlyMoves(f1.(e := f1.e.(ackTimeout := now + cfg.ackTimeout)), Some(fs), now, cfg);
    if f1.e.lastAck.Some? { AckSeqnoEffect(f1, f1.e.lastAck.value); }
  }

  lemma ReceiveTimely<K>(f: Focus<K>, fs: FrameSet, now: nat, cfg: Config, since: nat)
    requires Good(f, cfg) && Arrivable(fs) && Timely(f.e, since, now, cfg)
    ensures Timely(Receive(f, fs, now, cfg).e, if Applies(f.e.outq, fs) then now else since, now, cfg)
  {
    hide Good, AlmostGood, MarkDue, Xmit, Fsa, File, MarkReady, ReceiveAck, Timely;
    if fs.fstype == ACK {
      ReceiveAckTimely(f, fs, now, cfg, since);
    } else if fs.fstype == CONNNAK {
      FsaTimely(f, GotConnNak, Some(fs), now, cfg, since);
    } else {
      FileKeeps(f, fs, now, cfg);
      MarkReadyKeeps(File(f, fs, now, cfg), fs, cfg);
      FileTimely(f, fs, now, cfg, since);
      XmitTimely(MarkReady(File(f, fs, now, cfg), fs), now, cfg, since);
    }
  }

  lemma ReadHeadTimely<K>(f: Focus<K>, now: nat, cfg: Config, since: nat)
    requires Good(f, cfg) && Q.Readable(f.e.inq) && Timely(f.e, since, now, cfg)
    ensures Timely(ReadHead(f, now, cfg).e, since, now, cfg)
  {
    hide Good, Xmit, Fsa;
    var fs := f.e.inq.q[0];
    var f1 := Dequeue(f);
    DequeueKeeps(f, cfg);
    FsaKeeps(f1, RcvShutdown, Some(fs), now, cfg);
    FsaTimely(f1, RcvShutdown, Some(fs), now, cfg, since);
    XmitTimely(if fs.fstype == CONNSHUT then Fsa(f1, RcvShutdown, Some(fs), now, cfg) else f1, now, cfg, since);
  }

  /** When the queue last became non-empty or an ACK last applied. */
  function SinceAfter<K>(f: Focus<K>, op: Op, now: nat, since: nat): nat {
    if f.e.outq.q == [] || (op.Arrive? && Applies(f.e.outq, op.fs)) then now else since
  }

  lemma StepTimely<K>(f: Focus<K>, op: Op, now: nat, cfg: Config, since: nat, clock: nat)
    requires Good(f, cfg) && Enabled(f, op) && Timely(f.e, since, clock, cfg) && clock <= now
    ensures Timely(Step(f, op, now, cfg).e, SinceAfter(f, op, now, since), now, cfg)
  {
    hide Good, Send1, Receive, ReadHead, AckSeqno, Xmit, Fsa, Applies;
    var at := if f.e.outq.q == [] then now else since;
    match op
    case Send(fs) => Send1Timely(f, fs, now, cfg, at);
    case Arrive(fs) => ReceiveTimely(f, fs, now, cfg, at);
    case Read => ReadHeadTimely(f, now, cfg, at);
    case ClientAck(s) => AckSeqnoEffect(f, s);
    case Tick => XmitTimely(f, now, cfg, at);
    case CloseRequest => FsaTimely(f, ReqShutdown, None, now, cfg, at);
    case ShutTimer => FsaTimely(f, ShutTimedOut, None, now, cfg, at);
  }

  // ---------- Runs ----------

  /** The clock does not go backwards. */
  predicate Clocked(events: seq<Event>, clock: nat) {
    events != [] ==> clock <= events[0].now && Clocked(events[1..], events[0].now)
  }

  function ClockAfter(events: seq<Event>, clock: nat): nat {
    if events == [] then clock else ClockAfter(events[1..], events[0].now)
  }

  function SinceAfterAll<K(==)>(f: Focus<K>, events: seq<Event>, since: nat, cfg: Config): nat
    requires Possible(f, events, cfg)
    decreases |events|
  {
    if events == [] then since
    else
      var g := Step(f, events[0].op, events[0].now, cfg);
      SinceAfterAll(g, events[1..], SinceAfter(f, events[0].op, events[0].now, since), cfg)
  }

  lemma {:induction false} RunTimely<K>(f: Focus<K>, events: seq<Event>, cfg: Config, since: nat, clock: nat)
    requires Good(f, cfg) && Possible(f, events, cfg) && Clocked(events, clock) && Timely(f.e, since, clock, cfg)
    ensures Good(Exec(f, events, cfg), cfg)
    ensures Timely(Exec(f, events, cfg).e, SinceAfterAll(f, events, since, cfg), ClockAfter(events, clock), cfg)
    decreases |events|
  {
    hide Good, Step, Enabled, Timely, SinceAfter;
    if events == [] {
    } else {
      StepKeepsGood(f, events[0].op, events[0].now, cfg);
      StepTimely(f, events[0].op, events[0].now, cfg, since, clock);
      RunTimely(Step(f, events[0].op, events[0].now, cfg), events[1..], cfg,
                SinceAfter(f, events[0].op, events[0].now, since), events[0].now);
    }
  }

  lemma FreshTimely(maxlen: nat, qid: nat, cfg: Config)
    ensures Timely(FreshElem(maxlen, qid), 0, 0, cfg)
  {
  }

  /** Operations in which nothing but an ACK timeout may close the connection. */
  predicate Harmless<K(==)>(f: Focus<K>, op: Op)
    requires Enabled(f, op)
  {
    match op
    case Send(_) => true
    case Arrive(fs) => fs.fstype != ACK && fs.fstype != CONNNAK
    case Read => f.e.inq.q[0].fstype != CONNSHUT
    case ClientAck(_) => true
    case Tick => true
    case _ => false
  }

  /** The output queue is still there, in its session, and at most has grown. */
  predicate QueueKept(u: Q.Queue, v: Q.Queue) {
    u.q <= v.q && (u.session != 0 ==> v.session == u.session)
  }

  lemma XmitPatient<K>(f: Focus<K>, now: nat, cfg: Config)
    requires Good(f, cfg) && (f.e.outq.q != [] ==> now <= f.e.ackTimeout)
    ensures SameStanding(f, Xmit(f, now, cfg))
  {
    hide Good, Xmit, Closed;
    TimersSet(f, cfg);
    if Due(f.e, now) {
      DueRetransmits(f, now, cfg);
    } else {
      NotDueIsQuiet(f, now, cfg);
    }
  }

  lemma Send1Patient<K>(f: Focus<K>, fs: FrameSet, now: nat, cfg: Config)
    requires Good(f, cfg) && Sendable(fs) && (f.e.outq.q != [] ==> now <= f.e.ackTimeout)
    ensures QueueKept(f.e.outq, Send1(f, fs, now, cfg).0.e.outq)
  {
    hide Good, Xmit, Send1;
    if InShutdown(f.e.state) {
      Send1Refuses(f, fs, now, cfg);
    } else {
      var f1, f2 := Send1Unfolds(f, fs, now, cfg);
      StateKeepsGood(f, f1.e.state, cfg);
      AppendKeeps(f1, fs, now, cfg);
      XmitPatient(f2, now, cfg);
    }
  }

  lemma ReceivePatient<K>(f: Focus<K>, fs: FrameSet, now: nat, cfg: Config)
    requires Good(f, cfg) && Arrivable(fs) && fs.fstype != ACK && fs.fstype != CONNNAK
    requires f.e.outq.q != [] ==> now <= f.e.ackTimeout
    ensures QueueKept(f.e.outq, Receive(f, fs, now, cfg).e.outq)
  {
    hide Good, AlmostGood, MarkDue, Xmit;
    FileKeeps(f, fs, now, cfg);
    MarkReadyKeeps(File(f, fs, now, cfg), fs, cfg);
    FilePatient(f, fs, now, cfg);
    XmitPatient(MarkReady(File(f, fs, now, cfg), fs), now, cfg);
  }

  lemma FilePatient<K>(f: Focus<K>, fs: FrameSet, now: nat, cfg: Config)
    requires f.e.outq.q != [] ==> now <= f.e.ackTimeout
    ensures var g := MarkReady(File(f, fs, now, cfg), fs);
            g.e.outq == f.e.outq && (g.e.outq.q != [] ==> now <= g.e.ackTimeout)
  {
    hide Q.InqSorted, Fsa, Compare, Precedes, NextState, AckSeqno;
    var f1 := f.(e := f.e.(inq := Q.InqSorted(f.e.inq, fs).0));
    StartOnlyMoves(f1, Some(fs), now, cfg);
    StartOnlyMoves(f1.(e := f1.e.(ackTimeout := now + cfg.ackTimeout)), Some(fs), now, cfg);
    if f1.e.lastAck.Some? { AckSeqnoEffect(f1, f1.e.lastAck.value); }
  }

  /** In every run with a clock that does not go backwards, an ACK timeout closes no connection before its interval
      has passed since the output queue became non-empty or an ACK last applied. */
  lemma NoEarlyTimeout<K>(f: Focus<K>, events: seq<Event>, op: Op, now: nat, cfg: Config, since: nat, clock: nat)
    requires Good(f, cfg) && Possible(f, events, cfg) && Clocked(events, clock) && Timely(f.e, since, clock, cfg)
    requires var g := Exec(f, events, cfg); Enabled(g, op) && Harmless(g, op)
    requires ClockAfter(events, clock) <= now <= SinceAfterAll(f, events, since, cfg) + cfg.ackTimeout
    ensures var g := Exec(f, events, cfg); QueueKept(g.e.outq, Step(g, op, now, cfg).e.outq)
  {
    hide Good, Exec, Possible, Send1, Receive, ReadHead, AckSeqno, Xmit, SinceAfterAll, Clocked, ClockAfter;
    RunTimely(f, events, cfg, since, clock);
    var g := Exec(f, events, cfg);
    match op
    case Send(fs) => Send1Patient(g, fs, now, cfg);
    case Arrive(fs) => ReceivePatient(g, fs, now, cfg);
    case Read => ReadPatient(g, now, cfg);
    case ClientAck(s) => AckSeqnoEffect(g, s);
    case Tick => XmitPatient(g, now, cfg);
  }

  lemma ReadPatient<K>(f: Focus<K>, now: nat, cfg: Config)
    requires Good(f, cfg) && Q.Readable(f.e.inq) && f.e.inq.q[0].fstype != CONNSHUT
    requires f.e.outq.q != [] ==> now <= f.e.ackTimeout
    ensures QueueKept(f.e.outq, ReadHead(f, now, cfg).e.outq)
  {
    hide Good, Xmit, Fsa;
    DequeueKeeps(f, cfg);
    XmitPatient(Dequeue(f), now, cfg);
  }

  /** In every such run, if output is still queued and the connection is not up, a tick later than both intervals after
      the last event retransmits once more and closes it. */
  lemma DeadPeerGivenUp<K>(f: Focus<K>, events: seq<Event>, now: nat, cfg: Config, since: nat, clock: nat)
    requires Good(f, cfg) && Possible(f, events, cfg) && Clocked(events, clock) && Timely(f.e, since, clock, cfg)
    requires var g := Exec(f, events, cfg); g.e.outq.q != [] && GivesUpIn(g.e.state)
    requires now > ClockAfter(events, clock) + cfg.rexmit && now > ClockAfter(events, clock) + cfg.ackTimeout
    ensures var g := Exec(f, events, cfg);
            var h := Step(g, Tick, now, cfg);
            && Closed(g, h)
            && |h.wire| > |g.wire| && h.wire[|h.wire| - 1] == Packet(g.me, g.e.outq.q[0])
  {
    hide Good, Exec, Possible, Xmit, SinceAfterAll, Clocked, ClockAfter, Closed;
    RunTimely(f, events, cfg, since, clock);
    var g := Exec(f, events, cfg);
    TimersSet(g, cfg);
    DueRetransmits(g, now, cfg);
  }
}
