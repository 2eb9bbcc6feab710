/** Connection shutdown: the timer, the CONNSHUT that ends a session, and the way back to NONE. */
module FsProtocolShutdown {
  import opened FrameSets
  import opened FsProtocolSpec
  import opened FsProtocolInvariants
  import Q = FsQueueSpec

  // ---------- What transmitting does to the rest of a connection ----------

  /** Only transmission bookkeeping has changed. */
  ghost predicate Quiet<K>(f: Focus<K>, g: Focus<K>) {
    && g == f.(e := g.e, wire := g.wire)
    && Sends(f, g)
    && g.e == f.e.(lastSent := g.e.lastSent, nextRexmit := g.e.nextRexmit, ackTimeout := g.e.ackTimeout)
  }

  /** An input queue after a close. */
  function Emptied(u: Q.Queue): Q.Queue {
    u.(q := [], next := 1, session := 0, ready := u.ready && u.q == [])
  }

  /** The connection has been closed: everything is back where it started, in the next session. */
  ghost predicate Closed<K>(f: Focus<K>, g: Focus<K>) {
    && g.me == f.me && g.sent == f.sent && Sends(f, g)
    && g.e.state == NONE && !g.e.shutTimer && g.e.lastAck == None && g.e.lastSent == None
    && g.e.finalizeTimer && g.e.shutdownComplete
    && g.e.outq.q == [] && g.e.outq.next == 1
    && g.e.outq.session == (if f.e.outq.session == 0 then 0 else f.e.outq.session + 1)
    && g.e.inq == Emptied(f.e.inq)
  }

  lemma {:induction false} SendNewQuiet<K>(f: Focus<K>, i: nat)
    requires i <= |f.e.outq.q|
    ensures Quiet(f, SendNew(f, i))
    decreases |f.e.outq.q| - i
  {
    hide Precedes;
    if i == |f.e.outq.q| {
    } else {
      var fs := f.e.outq.q[i];
      if f.e.lastSent.Some? && Sequenced(fs) && !Precedes(f.e.lastSent.value, GetSeqno(fs).value) {
        SendNewQuiet(f, i + 1);
      } else {
        var g := Transmit(f, fs);
        SendNewQuiet(if Sequenced(fs) then g.(e := g.e.(lastSent := GetSeqno(fs))) else g, i + 1);
      }
    }
  }

  lemma SettleUnfolds<K>(f: Focus<K>, act: Actions, next: State)
    requires act.close ==> next == NONE
    requires act.noTime ==> act.close
    ensures if act.close then Closed(f, Settle(f, act, next))
            else Settle(f, act, next) == f.(e := f.e.(shutTimer := f.e.shutTimer || act.timer, state := next))
  {
    hide Remove;
  }

  lemma AckTimedOutTable(state: State)
    ensures var act := ActionsFor(state, AckTimedOut);
            && !act.ackMe && !act.sndShut && !act.timer && (act.noTime ==> act.close)
            && (act.close <==> state != NONE && state != UP)
    ensures NextState(state, AckTimedOut) == if state == UP then UP else NONE
  {
  }

  /** An ACK timeout closes the connection, unless it is up or not open at all. */
  lemma AckTimedOutEffect<K>(f: Focus<K>, now: nat, cfg: Config)
    ensures var g := Fsa(f, AckTimedOut, None, now, cfg);
            if f.e.state == NONE || f.e.state == UP then g == f else Closed(f, g)
  {
    hide Send1, AckMe, Settle, NextState, ActionsFor, Closed;
    AckTimedOutTable(f.e.state);
    SettleUnfolds(f, ActionsFor(f.e.state, AckTimedOut), NextState(f.e.state, AckTimedOut));
  }

  /** Retransmitting leaves a connection as it was, or closes it (never when it is up or not open). */
  lemma RexmitEffect<K>(f: Focus<K>, now: nat, cfg: Config)
    ensures Quiet(f, Rexmit(f, now, cfg)) || (Closed(f, Rexmit(f, now, cfg)) && f.e.state != NONE && f.e.state != UP)
    ensures f.e.outq.q == [] ==> Rexmit(f, now, cfg).e.outq.q == []
  {
    hide Fsa;
    if f.e.outq.q != [] {
      var g := Transmit(f.(e := f.e.(nextRexmit := now + cfg.rexmit)), f.e.outq.q[0]);
      AckTimedOutEffect(g, now, cfg);
    }
  }

  /** Transmitting leaves a connection as it was, or closes it (never when it is up or not open). */
  lemma XmitEffect<K>(f: Focus<K>, now: nat, cfg: Config)
    requires Good(f, cfg)
    ensures Quiet(f, Xmit(f, now, cfg)) || (Closed(f, Xmit(f, now, cfg)) && f.e.state != NONE && f.e.state != UP)
  {
    hide Good, Rexmit, SendNew;
    var f1 := if |f.e.outq.q| < cfg.window then SendNew(f, 0) else f;
    if |f.e.outq.q| < cfg.window { SendNewQuiet(f, 0); }
    RexmitEffect(f1, now, cfg);
  }

  // ---------- The shutdown invariant ----------

  /** A CONNSHUT is the last frameset of its session. */
  ghost predicate ShutIsLast(sent: seq<FrameSet>) {
    forall i, j :: 0 <= i && j == i + 1 && j < |sent|
                   && sent[i].fstype == CONNSHUT && Sequenced(sent[i]) && Sequenced(sent[j]) ==>
      GetSeqno(sent[j]).value.session > GetSeqno(sent[i]).value.session
  }

  /** The current output session has not been ended by a CONNSHUT. */
  predicate SessionOpen<K>(f: Focus<K>) {
    f.sent != [] && f.e.outq.next > 1 ==> f.sent[|f.sent| - 1].fstype != CONNSHUT
  }

  ghost predicate ShutOk<K>(f: Focus<K>) {
    && (f.e.state == NONE ==> f.e.outq.q == [])
    && (f.e.shutTimer <==> InShutdown(f.e.state))
    && ShutIsLast(f.sent)
    && (!InShutdown(f.e.state) ==> SessionOpen(f))
    && (InShutdown(f.e.state) ==> f.e.outq.session != 0)
  }

  lemma AppendShut<K>(f: Focus<K>, fs: FrameSet, now: nat, cfg: Config)
    requires Good(f, cfg) && Sendable(fs) && ShutIsLast(f.sent) && SessionOpen(f)
    ensures var g := Append(f, fs, now, cfg).0;
            && ShutIsLast(g.sent) && g.e.outq.session != 0
            && g.e.state == f.e.state && g.e.shutTimer == f.e.shutTimer && g.e.inq == f.e.inq && g.wire == f.wire
            && (fs.fstype != CONNSHUT ==> SessionOpen(g))
  {
    hide Q.OutOk, Q.InOk, Q.Readable, UnackedOk, ReadyOk, WindowOk;
    Q.EnqOut(f.e.outq, fs, cfg.processSession);
    var u := f.e.outq;
    if Q.Full(u) {
      assert u.session != 0 by { FullHasSession(u); }
    } else if f.sent != [] {
      assert Sequenced(f.sent[|f.sent| - 1]);
    }
  }

  lemma FullHasSession(u: Q.Queue)
    requires Q.OutOk(u) && Q.Full(u)
    ensures u.session != 0
  {
  }

  /** ReqSend only moves the state, out of NONE. */
  lemma ReqSendOnlyMoves<K>(f: Focus<K>, now: nat, cfg: Config)
    ensures Fsa(f, ReqSend, None, now, cfg) == f.(e := f.e.(state := NextState(f.e.state, ReqSend)))
  {
  }

  /** Send1 outside shutdown: open the connection, append, transmit. */
  lemma Send1Unfolds<K>(f: Focus<K>, fs: FrameSet, now: nat, cfg: Config) returns (f1: Focus<K>, f2: Focus<K>)
    requires !InShutdown(f.e.state)
    ensures f1 == f.(e := f.e.(state := if f.e.state == NONE then INIT else f.e.state))
    ensures f2 == Append(f1, fs, now, cfg).0
    ensures Send1(f, fs, now, cfg) == (Xmit(f2, now, cfg), Append(f1, fs, now, cfg).1)
  {
    hide Xmit, Accept;
    ReqSendOnlyMoves(f, now, cfg);
    f1 := Fsa(f, ReqSend, None, now, cfg);
    f2 := Append(f1, fs, now, cfg).0;
  }

  lemma StateKeepsGood<K>(f: Focus<K>, state: State, cfg: Config)
    requires Good(f, cfg)
    ensures Good(f.(e := f.e.(state := state)), cfg)
  {
    GoodFrame(f, f.(e := f.e.(state := state)), cfg);
  }

  /** A frameset that already has a sequence number is refused by the queue, but only after an idle connection has
      been put on the list of those that wait for ACKs: then it is listed with nothing to wait for. */
  lemma SequencedSendKeepsIff<K>(f: Focus<K>, fs: FrameSet, now: nat, cfg: Config)
    requires Good(f, cfg) && Sequenced(fs)
    ensures Good(Send1(f, fs, now, cfg).0, cfg) <==> InShutdown(f.e.state) || f.e.outq.q != []
  {
    hide Good, Send1, Xmit, Append;
    if InShutdown(f.e.state) {
      Send1Refuses(f, fs, now, cfg);
    } else {
      var f1, f2 := Send1Unfolds(f, fs, now, cfg);
      StateKeepsGood(f, f1.e.state, cfg);
      SequencedAppend(f1, fs, now, cfg);
      if f.e.outq.q == [] {
        ListedIdle(f1, f2, now, cfg);
      } else {
        XmitKeeps(f1, now, cfg);
      }
    }
  }

  lemma SequencedAppend<K>(f: Focus<K>, fs: FrameSet, now: nat, cfg: Config)
    requires Sequenced(fs)
    ensures Append(f, fs, now, cfg).0 ==
            if f.e.outq.q != [] then f
            else f.(unacked := [f.me] + f.unacked,
                    e := f.e.(nextRexmit := now + cfg.rexmit, ackTimeout := now + cfg.ackTimeout))
  {
  }

  /** A connection with an empty output queue that is listed as waiting stays so when it transmits. */
  lemma ListedIdle<K>(f: Focus<K>, g: Focus<K>, now: nat, cfg: Config)
    requires Good(f, cfg) && f.e.outq.q == []
    requires g == f.(unacked := [f.me] + f.unacked, e := g.e) && g.e.outq == f.e.outq
            && g.e.nextRexmit == now + cfg.rexmit
    ensures Xmit(g, now, cfg) == g && !Good(g, cfg)
  {
    hide Chained, SentOk, Q.OutOk, Q.InOk, WindowOk, Q.Readable, Rexmit;
    assert multiset([f.me] + f.unacked) == multiset{f.me} + multiset(f.unacked);
  }

  /** Sending anything but a CONNSHUT keeps the shutdown invariant. */
  lemma Send1Shut<K>(f: Focus<K>, fs: FrameSet, now: nat, cfg: Config)
    requires Good(f, cfg) && ShutOk(f) && Sendable(fs) && fs.fstype != CONNSHUT
    ensures ShutOk(Send1(f, fs, now, cfg).0)
  {
    hide Good, Xmit, ShutIsLast, Send1;
    if InShutdown(f.e.state) {
      assert Send1(f, fs, now, cfg).0 == f by { Send1Refuses(f, fs, now, cfg); }
    } else {
      var f1, f2 := Send1Unfolds(f, fs, now, cfg);
      StateKeepsGood(f, f1.e.state, cfg);
      AppendShut(f1, fs, now, cfg);
      AppendKeeps(f1, fs, now, cfg);
      XmitEffect(f2, now, cfg);
    }
  }

  lemma Send1Refuses<K>(f: Focus<K>, fs: FrameSet, now: nat, cfg: Config)
    requires InShutdown(f.e.state)
    ensures Send1(f, fs, now, cfg) == (f, true)
  {
  }

  /** Sending the CONNSHUT from inside the automaton: the session ends with it, even if the send closes. */
  lemma SendShutEffect<K>(f: Focus<K>, now: nat, cfg: Config)
    requires Good(f, cfg) && ShutOk(f) && !InShutdown(f.e.state)
    ensures var g := Send1(f, ShutFrameSet(), now, cfg).0;
            ShutIsLast(g.sent) && !g.e.shutTimer && g.e.outq.session != 0
  {
    hide Good, Xmit, ShutIsLast, Send1;
    var f1, f2 := Send1Unfolds(f, ShutFrameSet(), now, cfg);
    StateKeepsGood(f, f1.e.state, cfg);
    AppendShut(f1, ShutFrameSet(), now, cfg);
    AppendKeeps(f1, ShutFrameSet(), now, cfg);
    XmitEffect(f2, now, cfg);
  }

  /** What the two tables agree on, CONNNAK aside: every way into shutdown sends a CONNSHUT and starts the
      timer, every way out of it (or back to NONE) closes the connection, and nothing else closes. */
  lemma TablesAgree(state: State, input: Input)
    requires input != GotConnNak
    ensures var act, next := ActionsFor(state, input), NextState(state, input);
            && (act.sndShut <==> !InShutdown(state) && InShutdown(next))
            && (act.timer <==> act.sndShut)
            && (act.noTime ==> act.close)
            && (act.close ==> next == NONE)
            && (next == NONE && state != NONE ==> act.close)
            && (InShutdown(state) && !InShutdown(next) ==> next == NONE)
  {
  }

  /** The state of a connection that is shutting down: has the peer's CONNSHUT come, has all output been
      acknowledged? */
  function ShutState(peerClosed: bool, allAcked: bool): State {
    if peerClosed then if allAcked then NONE else SHUT2
    else if allAcked then SHUT3 else SHUT1
  }

  /** Inside shutdown the tables remember exactly these two facts, and end in NONE when both hold or time has run
      out. */
  lemma ShutdownRemembers(peerClosed: bool, allAcked: bool, input: Input)
    requires !(peerClosed && allAcked) && input != GotConnNak
    ensures InShutdown(ShutState(peerClosed, allAcked))
    ensures NextState(ShutState(peerClosed, allAcked), input) ==
            if input == AckTimedOut || input == ShutTimedOut then NONE
            else ShutState(peerClosed || input == RcvShutdown, allAcked || input == OutAllDone)
  {
  }

  /** Outside shutdown: the first frameset from the peer, or the first ACK for everything sent, brings a connection
      up; a send begins to open it; either end can begin a shutdown, and only an ACK timeout while it opens gives
      it up. */
  lemma OpenTables(state: State, input: Input)
    requires !InShutdown(state) && input != GotConnNak
    ensures NextState(state, input) ==
            match input
            case RcvShutdown => ShutState(true, false)
            case ReqShutdown => if state == NONE then NONE else ShutState(false, false)
            case GotStart => if state == NONE then UP else state
            case ReqSend => if state == NONE then INIT else state
            case OutAllDone => if state == INIT then UP else state
            case AckTimedOut => if state == INIT then NONE else state
            case _ => state
  {
  }

  /** The peer's CONNSHUT is acknowledged wherever there is a connection; connections are closed on the way to NONE, and
      there by request; a CONNNAK leads everywhere but in INIT to NONE, and closes outside shutdown. */
  lemma ActionsSay(state: State, input: Input)
    ensures var act, next := ActionsFor(state, input), NextState(state, input);
            && (act.ackMe <==> input == RcvShutdown && state != NONE)
            && (input != GotConnNak ==>
                  (act.close <==> next == NONE && (state != NONE || input == ReqShutdown))
                  && (act.noTime <==> act.close && InShutdown(state) && input != ShutTimedOut))
            && (input == GotConnNak ==>
                  next == (if state == INIT then INIT else NONE) && (act.close <==> !InShutdown(state)))
  {
  }

  /** Acknowledging may add a packet and move the last ACK forward; nothing else. */
  lemma AckSeqnoEffect<K>(f: Focus<K>, s: Seqno)
    ensures var g := AckSeqno(f, s);
            && g == f.(e := f.e.(lastAck := g.e.lastAck), wire := g.wire)
            && (g.wire == f.wire || g.wire == f.wire + [Packet(f.me, AckOf(s))])
            && (g.e.lastAck == f.e.lastAck || g.e.lastAck == Some(s))
  {
  }

  lemma AckMeShut<K>(f: Focus<K>, fs: Option<FrameSet>)
    requires ShutOk(f)
    ensures var g := AckMe(f, fs);
            ShutOk(g) && g == f.(e := f.e.(lastAck := g.e.lastAck), wire := g.wire)
  {
    hide AckSeqno, ShutIsLast;
    if fs.Some? && Sequenced(fs.value) { AckSeqnoEffect(f, GetSeqno(fs.value).value); }
  }

  /** The end of an automaton step keeps, or restores, the shutdown invariant. */
  lemma SettleShut<K>(f: Focus<K>, g: Focus<K>, act: Actions, next: State)
    requires act.noTime ==> act.close
    requires ShutOk(f)
    requires act.close ==> next == NONE
    requires act.timer <==> act.sndShut
    requires act.sndShut <==> !InShutdown(f.e.state) && InShutdown(next)
    requires next == NONE && f.e.state != NONE ==> act.close
    requires InShutdown(f.e.state) && !InShutdown(next) ==> next == NONE
    requires if act.sndShut then ShutIsLast(g.sent) && !g.e.shutTimer && g.e.outq.session != 0
             else g == f.(e := f.e.(lastAck := g.e.lastAck), wire := g.wire)
    ensures ShutOk(Settle(g, act, next))
  {
    hide ShutIsLast, Settle;
    SettleUnfolds(g, act, next);
  }

  /** One step of the automaton: acknowledge, send, settle. */
  lemma FsaUnfolds<K>(f: Focus<K>, input: Input, fs: Option<FrameSet>, now: nat, cfg: Config)
    returns (f1: Focus<K>, f2: Focus<K>)
    ensures var act := ActionsFor(f.e.state, input);
            && f1 == (if act.ackMe then AckMe(f, fs) else f)
            && f2 == (if act.sndShut then Send1(f1, ShutFrameSet(), now, cfg).0 else f1)
            && Fsa(f, input, fs, now, cfg) == Settle(f2, act, NextState(f.e.state, input))
  {
    hide Send1, AckMe, NextState, ActionsFor, Settle;
    OnlyShutdownInputsSendShut(f.e.state, input);
    var act := ActionsFor(f.e.state, input);
    f1 := if act.ackMe then AckMe(f, fs) else f;
    f2 := if act.sndShut then Send1(f1, ShutFrameSet(), now, cfg).0 else f1;
  }

  /** A CONNNAK outside shutdown throws away all input and output and moves on to the next session; during shutdown the
      connection keeps them, although it is then in NONE. */
  lemma NakCloses<K>(f: Focus<K>, fs: FrameSet, now: nat, cfg: Config)
    requires fs.fstype == CONNNAK
    ensures var g := Receive(f, fs, now, cfg);
            if InShutdown(f.e.state) then g == f.(e := f.e.(state := NONE))
            else
              && g.e.state == (if f.e.state == INIT then INIT else NONE)
              && g.e.outq.q == [] && g.e.inq.q == [] && g.wire == f.wire
              && g.e.outq.session == (if f.e.outq.session == 0 then 0 else f.e.outq.session + 1)
              && g.e.inq.session == 0 && g.e.shutdownComplete
  {
    hide Send1, AckMe, NextState, ActionsFor, Fsa, Remove;
    ActionsSay(f.e.state, GotConnNak);
    OnlyShutdownInputsSendShut(f.e.state, GotConnNak);
    if InShutdown(f.e.state) { NakTable(f.e.state); }
    var f1, f2 := FsaUnfolds(f, GotConnNak, Some(fs), now, cfg);
  }

  lemma NakTable(state: State)
    requires InShutdown(state)
    ensures ActionsFor(state, GotConnNak) == NOTHING
  {
  }

  /** Every input but a CONNNAK keeps the shutdown invariant, re-entrant calls included. */
  lemma FsaShut<K>(f: Focus<K>, input: Input, fs: Option<FrameSet>, now: nat, cfg: Config)
    requires Good(f, cfg) && ShutOk(f) && input != GotConnNak
    ensures ShutOk(Fsa(f, input, fs, now, cfg))
  {
    hide *;
    var act, next := ActionsFor(f.e.state, input), NextState(f.e.state, input);
    var f1, f2 := FsaUnfolds(f, input, fs, now, cfg);
    TablesAgree(f.e.state, input);
    AckMeKeeps(f, fs, cfg);
    AckMeShut(f, fs);
    if act.sndShut { SendShutEffect(f1, now, cfg); }
    SettleShut(f, f2, act, next);
  }

  // ---------- Whole operations ----------

  lemma XmitShut<K>(f: Focus<K>, now: nat, cfg: Config)
    requires Good(f, cfg) && ShutOk(f)
    ensures ShutOk(Xmit(f, now, cfg))
  {
    hide Good, Xmit, ShutIsLast;
    XmitEffect(f, now, cfg);
  }

  lemma ReceiveAckShut<K>(f: Focus<K>, fs: FrameSet, now: nat, cfg: Config)
    requires Good(f, cfg) && ShutOk(f)
    ensures ShutOk(ReceiveAck(f, fs, now, cfg))
  {
    hide Good, Xmit, Fsa, ShutIsLast, Q.AckThrough;
    if Sequenced(fs) {
      var s := GetSeqno(fs).value;
      var g := Acked(f, s, now, cfg);
      AckedKeeps(f, s, now, cfg);
      AckedShut(f, s, now, cfg);
      XmitShut(g, now, cfg);
      XmitKeeps(g, now, cfg);
      var h := Xmit(g, now, cfg);
      AckTimeoutKeeps(h, 0, cfg);
      FsaShut(h.(e := h.e.(ackTimeout := 0)), OutAllDone, Some(fs), now, cfg);
    }
  }

  lemma AckedShut<K>(f: Focus<K>, s: Seqno, now: nat, cfg: Config)
    requires Good(f, cfg) && ShutOk(f)
    ensures ShutOk(Acked(f, s, now, cfg))
  {
    hide ShutIsLast, Q.OutOk, Q.InOk, WindowOk, SentOk, UnackedOk, ReadyOk, Q.AckThrough;
    Q.AckThroughOut(f.e.outq, s);
  }

  /** The shutdown invariant survives every arrival except a CONNNAK. */
  lemma ReceiveShut<K>(f: Focus<K>, fs: FrameSet, now: nat, cfg: Config)
    requires Good(f, cfg) && ShutOk(f) && Arrivable(fs) && fs.fstype != CONNNAK
    ensures ShutOk(Receive(f, fs, now, cfg))
  {
    hide Good, AlmostGood, MarkDue, Xmit, Fsa, File, ReceiveAck, ShutIsLast;
    if fs.fstype == ACK {
      ReceiveAckShut(f, fs, now, cfg);
    } else {
      FileKeeps(f, fs, now, cfg);
      FileShape(f, fs, now, cfg);
      FileState(f, fs, now, cfg);
      MarkReadyKeeps(File(f, fs, now, cfg), fs, cfg);
      XmitShut(MarkReady(File(f, fs, now, cfg), fs), now, cfg);
    }
  }

  /** Filing can only open a connection. */
  lemma FileState<K>(f: Focus<K>, fs: FrameSet, now: nat, cfg: Config)
    ensures var g := File(f, fs, now, cfg);
            g.e.state == f.e.state || (f.e.state == NONE && g.e.state == UP)
  {
    hide Q.InqSorted, Fsa, Compare, Precedes;
    var f1 := f.(e := f.e.(inq := Q.InqSorted(f.e.inq, fs).0));
    StartOnlyMoves(f1, Some(fs), now, cfg);
    StartOnlyMoves(f1.(e := f1.e.(ackTimeout := now + cfg.ackTimeout)), Some(fs), now, cfg);
  }

  lemma ReadHeadShut<K>(f: Focus<K>, now: nat, cfg: Config)
    requires Good(f, cfg) && ShutOk(f) && Q.Readable(f.e.inq)
    ensures ShutOk(ReadHead(f, now, cfg))
  {
    hide Good, Xmit, Fsa, ShutIsLast;
    var fs := f.e.inq.q[0];
    var f1 := Dequeue(f);
    DequeueKeeps(f, cfg);
    FsaKeeps(f1, RcvShutdown, Some(fs), now, cfg);
    FsaShut(f1, RcvShutdown, Some(fs), now, cfg);
    XmitShut(if fs.fstype == CONNSHUT then Fsa(f1, RcvShutdown, Some(fs), now, cfg) else f1, now, cfg);
  }

  // ---------- Input queues only change by arrivals, reads and closes ----------

  predicate InqKept<K(==)>(f: Focus<K>, g: Focus<K>) {
    g.e.inq == f.e.inq || g.e.inq == Emptied(f.e.inq)
  }

  lemma XmitInq<K>(f: Focus<K>, now: nat, cfg: Config)
    requires Good(f, cfg)
    ensures InqKept(f, Xmit(f, now, cfg))
  {
    hide Good, Xmit;
    XmitEffect(f, now, cfg);
  }

  lemma Send1Inq<K>(f: Focus<K>, fs: FrameSet, now: nat, cfg: Config)
    requires Good(f, cfg) && Sendable(fs)
    ensures InqKept(f, Send1(f, fs, now, cfg).0)
  {
    hide Good, Xmit, Send1;
    if InShutdown(f.e.state) {
      Send1Refuses(f, fs, now, cfg);
    } else {
      var f1, f2 := Send1Unfolds(f, fs, now, cfg);
      StateKeepsGood(f, f1.e.state, cfg);
      AppendKeeps(f1, fs, now, cfg);
      XmitInq(f2, now, cfg);
    }
  }

  lemma AckMeEffect<K>(f: Focus<K>, fs: Option<FrameSet>)
    ensures var g := AckMe(f, fs);
            g == f.(e := f.e.(lastAck := g.e.lastAck), wire := g.wire) && Sends(f, g)
  {
    hide AckSeqno;
    if fs.Some? && Sequenced(fs.value) { AckSeqnoEffect(f, GetSeqno(fs.value).value); }
  }

  lemma SettleInq<K>(f: Focus<K>, act: Actions, next: State)
    ensures InqKept(f, Settle(f, act, next))
  {
    hide Remove;
  }

  lemma FsaInq<K>(f: Focus<K>, input: Input, fs: Option<FrameSet>, now: nat, cfg: Config)
    requires Good(f, cfg)
    ensures InqKept(f, Fsa(f, input, fs, now, cfg))
  {
    hide Good, Send1, AckMe, NextState, ActionsFor, Settle;
    var act := ActionsFor(f.e.state, input);
    var f1 := if act.ackMe then AckMe(f, fs) else f;
    AckMeKeeps(f, fs, cfg);
    AckMeEffect(f, fs);
    Send1Inq(f1, ShutFrameSet(), now, cfg);
    SettleInq(if act.sndShut then Send1(f1, ShutFrameSet(), now, cfg).0 else f1, act, NextState(f.e.state, input));
  }

  lemma ReceiveAckInq<K>(f: Focus<K>, fs: FrameSet, now: nat, cfg: Config)
    requires Good(f, cfg)
    ensures InqKept(f, ReceiveAck(f, fs, now, cfg))
  {
    hide Good, Xmit, Fsa, Q.AckThrough;
    if Sequenced(fs) {
      var s := GetSeqno(fs).value;
      var g := Acked(f, s, now, cfg);
      AckedKeeps(f, s, now, cfg);
      XmitInq(g, now, cfg);
      XmitKeeps(g, now, cfg);
      var h := Xmit(g, now, cfg);
      AckTimeoutKeeps(h, 0, cfg);
      FsaInq(h.(e := h.e.(ackTimeout := 0)), OutAllDone, Some(fs), now, cfg);
    }
  }

  /** An arrival changes the input queue by filing it, and a close may follow. */
  lemma ReceiveInq<K>(f: Focus<K>, fs: FrameSet, now: nat, cfg: Config) returns (g: Focus<K>)
    requires Good(f, cfg) && Arrivable(fs) && fs.fstype != ACK && fs.fstype != CONNNAK
    ensures g == MarkReady(File(f, fs, now, cfg), fs)
    ensures InqKept(g, Receive(f, fs, now, cfg))
  {
    hide Good, AlmostGood, MarkDue, Xmit, File, MarkReady;
    g := MarkReady(File(f, fs, now, cfg), fs);
    FileKeeps(f, fs, now, cfg);
    MarkReadyKeeps(File(f, fs, now, cfg), fs, cfg);
    XmitInq(g, now, cfg);
  }

  /** A read takes the head off the input queue, and a close may follow. */
  lemma ReadHeadInq<K>(f: Focus<K>, now: nat, cfg: Config)
    requires Good(f, cfg) && Q.Readable(f.e.inq)
    ensures InqKept(Dequeue(f), ReadHead(f, now, cfg))
  {
    hide Good, Xmit, Fsa, Dequeue;
    var fs := f.e.inq.q[0];
    var f1 := Dequeue(f);
    DequeueKeeps(f, cfg);
    FsaKeeps(f1, RcvShutdown, Some(fs), now, cfg);
    FsaInq(f1, RcvShutdown, Some(fs), now, cfg);
    XmitInq(if fs.fstype == CONNSHUT then Fsa(f1, RcvShutdown, Some(fs), now, cfg) else f1, now, cfg);
  }
}
