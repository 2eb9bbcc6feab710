/** What a connection has put on the wire. */
module Trails {
  import opened FrameSets
  import opened FsProtocolSpec
  import opened FsProtocolInvariants
  import opened FsProtocolShutdown
  import opened Connection
  import Q = FsQueueSpec

  /** An ACK for one of the given sequence numbers. */
  predicate AcksOneOf(fs: FrameSet, held: set<Seqno>) {
    fs.reqFrame.Some? && fs.reqFrame.value in held && fs == AckOf(fs.reqFrame.value)
  }

  /** Every packet sent to the peer is a frameset that the output queue accepted or an ACK for something held. */
  ghost predicate WireOk<K>(f: Focus<K>, held: set<Seqno>) {
    forall p :: p in f.wire && p.dest == f.me ==> p.fs in f.sent || AcksOneOf(p.fs, held)
  }

  /** What the output queue accepts is never an ACK or a CONNNAK, and never in session 0. */
  ghost predicate SentKinds(sent: seq<FrameSet>) {
    forall x :: x in sent ==>
      x.fstype >= MIN_SEQFRAMESET && x.fstype != ACK && x.fstype != CONNNAK
      && x.reqFrame.Some? && x.reqFrame.value.session != 0
  }

  /** Queued framesets up to the last one sent are on the wire. */
  ghost predicate PrefixOnWire<K>(f: Focus<K>) {
    forall i :: 0 <= i < |f.e.outq.q| && Sequenced(f.e.outq.q[i]) && f.e.lastSent.Some?
                && !Precedes(f.e.lastSent.value, GetSeqno(f.e.outq.q[i]).value) ==>
      Packet(f.me, f.e.outq.q[i]) in f.wire
  }

  /** A queued frameset above the last one sent. */
  predicate Unsent(last: Option<Seqno>, fs: FrameSet) {
    Sequenced(fs) && (last.Some? ==> Precedes(last.value, GetSeqno(fs).value))
  }

  /** Queued framesets above the last one sent are not on the wire, but for the oldest, which may be retransmitted. */
  ghost predicate RestOffWire<K>(f: Focus<K>) {
    forall i :: 0 <= i < |f.e.outq.q| ==>
      && f.e.outq.q[i].fstype != ACK
      && (i > 0 && Unsent(f.e.lastSent, f.e.outq.q[i]) ==> Packet(f.me, f.e.outq.q[i]) !in f.wire)
  }

  ghost predicate Trail<K>(f: Focus<K>, held: set<Seqno>) {
    && WireOk(f, held)
    && SentKinds(f.sent)
    && PrefixOnWire(f)
    && RestOffWire(f)
    && (f.e.lastAck.Some? ==> f.e.lastAck.value in held)
  }

  lemma TrailGrows<K>(f: Focus<K>, held: set<Seqno>, more: set<Seqno>)
    requires Trail(f, held) && held <= more
    ensures Trail(f, more)
  {
  }

  lemma AckSeqnoTrail<K>(f: Focus<K>, s: Seqno, held: set<Seqno>)
    requires Trail(f, held) && s in held
    ensures Trail(AckSeqno(f, s), held)
  {
    hide Compare, Precedes, Unsent;
  }

  lemma AckMeTrail<K>(f: Focus<K>, fs: Option<FrameSet>, held: set<Seqno>)
    requires Trail(f, held)
    requires fs.Some? && Sequenced(fs.value) ==> GetSeqno(fs.value).value in held
    ensures Trail(AckMe(f, fs), held)
  {
    hide Trail, AckSeqno;
    if fs.Some? && Sequenced(fs.value) { AckSeqnoTrail(f, GetSeqno(fs.value).value, held); }
  }

  lemma SettleTrail<K>(f: Focus<K>, act: Actions, next: State, held: set<Seqno>)
    requires Trail(f, held)
    ensures Trail(Settle(f, act, next), held)
  {
    hide SentKinds, Precedes, Unsent, Remove;
  }

  lemma QueuedIsSent<K>(f: Focus<K>, cfg: Config, i: nat)
    requires Good(f, cfg) && i < |f.e.outq.q|
    ensures f.e.outq.q[i] in f.sent && Sequenced(f.e.outq.q[i])
  {
    hide Q.InOk, Chained, UnackedOk, ReadyOk, WindowOk;
    assert f.e.outq.q[i] == f.sent[|f.sent| - |f.e.outq.q| + i];
  }

  lemma AppendTrail<K>(f: Focus<K>, fs: FrameSet, now: nat, cfg: Config, held: set<Seqno>)
    requires Good(f, cfg) && Sendable(fs) && Trail(f, held) && fs.fstype != ACK && fs.fstype != CONNNAK
    ensures Trail(Append(f, fs, now, cfg).0, held)
  {
    hide Good, Append, Q.Stamp, WireOk, SentKinds, PrefixOnWire, RestOffWire, Precedes;
    var g := Append(f, fs, now, cfg).0;
    var x := AppendShape(f, fs, now, cfg);
    if g.sent != f.sent {
      assert SentKinds([x]) by { OneSent(x); }
      AppendKeeps(f, fs, now, cfg);
      assert x !in f.sent by { GoodSent(g, cfg); LastIsNew(g.sent); }
      SentGrows(f, g, x, held);
    } else {
      SentStays(f, g, held);
    }
  }

  /** Appending adds one frameset to the queue and to the history, above the last one sent, or nothing at all. */
  lemma AppendShape<K>(f: Focus<K>, fs: FrameSet, now: nat, cfg: Config) returns (x: FrameSet)
    requires Good(f, cfg) && Sendable(fs)
    ensures var g := Append(f, fs, now, cfg).0;
            && g.me == f.me && g.wire == f.wire && g.e.lastSent == f.e.lastSent && g.e.lastAck == f.e.lastAck
            && (g.sent != f.sent || g.e.outq.q != f.e.outq.q ==>
                  g.sent == f.sent + [x] && g.e.outq.q == f.e.outq.q + [x])
    ensures x.fstype == fs.fstype && Sequenced(x) && GetSeqno(x).value.session != 0
    ensures f.e.lastSent.Some? ==> Precedes(f.e.lastSent.value, GetSeqno(x).value)
  {
    hide Q.InOk, Q.Readable, SentOk, Chained, UnackedOk, ReadyOk, Precedes, Q.Full;
    x := Q.Stamp(f.e.outq, fs, cfg.processSession);
    Q.EnqOut(f.e.outq, fs, cfg.processSession);
    if f.e.lastSent.Some? { LastSentIsOld(f, fs, cfg); }
  }

  lemma GoodSent<K>(f: Focus<K>, cfg: Config)
    requires Good(f, cfg)
    ensures Chained(f.sent)
  {
  }

  /** The frameset accepted last was not accepted before. */
  lemma LastIsNew(sent: seq<FrameSet>)
    requires Chained(sent) && sent != []
    ensures sent[|sent| - 1] !in sent[..|sent| - 1]
  {
    var n := |sent| - 1;
    forall i | 0 <= i < n ensures sent[i] != sent[n] { NoIdReused(sent, i, n); }
  }

  /** A frameset that is enqueued, but not sent yet, keeps the trail. */
  lemma SentGrows<K>(f: Focus<K>, g: Focus<K>, x: FrameSet, held: set<Seqno>)
    requires WireOk(f, held) && SentKinds(f.sent) && PrefixOnWire(f) && RestOffWire(f) && SentKinds([x])
    requires x !in f.sent && x.fstype != ACK
    requires g.me == f.me && g.wire == f.wire && g.e.lastSent == f.e.lastSent
    requires g.sent == f.sent + [x] && g.e.outq.q == f.e.outq.q + [x]
    requires Sequenced(x) && f.e.lastSent.Some? ==> Precedes(f.e.lastSent.value, GetSeqno(x).value)
    ensures WireOk(g, held) && SentKinds(g.sent) && PrefixOnWire(g) && RestOffWire(g)
  {
    hide Precedes, Unsent, GetSeqno;
    SentKindsAdd(f.sent, x);
  }

  lemma OneSent(x: FrameSet)
    requires x.fstype >= MIN_SEQFRAMESET && x.fstype != ACK && x.fstype != CONNNAK
    requires x.reqFrame.Some? && x.reqFrame.value.session != 0
    ensures SentKinds([x])
  {
  }

  lemma SentKindsAdd(sent: seq<FrameSet>, x: FrameSet)
    requires SentKinds(sent) && SentKinds([x])
    ensures SentKinds(sent + [x])
  {
    assert x in [x];
  }

  lemma SentStays<K>(f: Focus<K>, g: Focus<K>, held: set<Seqno>)
    requires WireOk(f, held) && PrefixOnWire(f) && RestOffWire(f)
    requires g.me == f.me && g.wire == f.wire && g.e.lastSent == f.e.lastSent
    requires g.sent == f.sent && g.e.outq.q == f.e.outq.q
    ensures WireOk(g, held) && PrefixOnWire(g) && RestOffWire(g)
  {
    hide Precedes, Unsent, GetSeqno;
  }

  /** A frameset that is enqueued lies above the last one sent. */
  lemma LastSentIsOld<K>(f: Focus<K>, fs: FrameSet, cfg: Config)
    requires Good(f, cfg) && Sendable(fs) && f.e.lastSent.Some?
    ensures Precedes(f.e.lastSent.value, GetSeqno(Q.Stamp(f.e.outq, fs, cfg.processSession)).value)
  {
  }

  /** The framesets before position i are on the wire. */
  ghost predicate OnWire<K>(f: Focus<K>, i: nat)
    requires i <= |f.e.outq.q|
  {
    forall j :: 0 <= j < i ==> Packet(f.me, f.e.outq.q[j]) in f.wire
  }

  lemma {:induction false} SendNewTrail<K>(f: Focus<K>, i: nat, cfg: Config, held: set<Seqno>)
    requires Good(f, cfg) && Trail(f, held) && i <= |f.e.outq.q| < cfg.window && OnWire(f, i)
    ensures Trail(SendNew(f, i), held)
    ensures SendNew(f, i).e.outq == f.e.outq && SendNew(f, i).me == f.me && OnWire(SendNew(f, i), |f.e.outq.q|)
    decreases |f.e.outq.q| - i
  {
    hide Good, SentKinds, Precedes, Trail;
    if i == |f.e.outq.q| {
    } else {
      var fs := f.e.outq.q[i];
      QueuedIsSent(f, cfg, i);
      if f.e.lastSent.Some? && !Precedes(f.e.lastSent.value, GetSeqno(fs).value) {
        assert Packet(f.me, fs) in f.wire by { TrailPrefix(f, held, i); }
        SendNewTrail(f, i + 1, cfg, held);
      } else {
        var g := Transmit(f, fs);
        var h := g.(e := g.e.(lastSent := GetSeqno(fs)));
        SendOneTrail(f, i, cfg, held);
        SendNewTrail(h, i + 1, cfg, held);
      }
    }
  }

  lemma TrailPrefix<K>(f: Focus<K>, held: set<Seqno>, i: nat)
    requires Trail(f, held) && i < |f.e.outq.q| && Sequenced(f.e.outq.q[i])
    requires f.e.lastSent.Some? && !Precedes(f.e.lastSent.value, GetSeqno(f.e.outq.q[i]).value)
    ensures Packet(f.me, f.e.outq.q[i]) in f.wire
  {
    hide Precedes;
  }

  lemma SendOneTrail<K>(f: Focus<K>, i: nat, cfg: Config, held: set<Seqno>)
    requires Good(f, cfg) && Trail(f, held) && i < |f.e.outq.q| < cfg.window && OnWire(f, i)
    requires Unsent(f.e.lastSent, f.e.outq.q[i])
    ensures var fs := f.e.outq.q[i];
            var g := Transmit(f, fs);
            var h := g.(e := g.e.(lastSent := GetSeqno(fs)));
            Good(h, cfg) && Trail(h, held) && OnWire(h, i + 1)
  {
    hide Q.InOk, SentOk, UnackedOk, ReadyOk, SentKinds;
    var fs := f.e.outq.q[i];
    QueuedIsSent(f, cfg, i);
    var g := Transmit(f, fs);
    var h := g.(e := g.e.(lastSent := GetSeqno(fs)));
    GoodFrame(f, h, cfg);
    assert forall p :: p in h.wire ==> p in f.wire || p == Packet(f.me, fs);
  }

  lemma {:induction false} FsaTrail<K>(f: Focus<K>, input: Input, fs: Option<FrameSet>, now: nat, cfg: Config,
          held: set<Seqno>)
    requires Good(f, cfg) && Trail(f, held)
    requires input == RcvShutdown && fs.Some? && Sequenced(fs.value) ==> GetSeqno(fs.value).value in held
    ensures Trail(Fsa(f, input, fs, now, cfg), held)
    decreases if MaySendShut(input) then 1 else 0, 0, 0
  {
    hide Good, Trail, AckMe, Send1, Settle;
    OnlyShutdownInputsSendShut(f.e.state, input);
    OnlyRcvShutdownAcks(f.e.state, input);
    var act := ActionsFor(f.e.state, input);
    var f1 := if act.ackMe then AckMe(f, fs) else f;
    AckMeKeeps(f, fs, cfg);
    if act.ackMe { AckMeTrail(f, fs, held); }
    if act.sndShut { Send1Trail(f1, ShutFrameSet(), now, cfg, held); }
    var f2 := if act.sndShut then Send1(f1, ShutFrameSet(), now, cfg).0 else f1;
    SettleTrail(f2, act, NextState(f.e.state, input), held);
  }

  lemma OnlyRcvShutdownAcks(state: State, input: Input)
    ensures ActionsFor(state, input).ackMe ==> input == RcvShutdown
  {
  }

  lemma StateTrail<K>(f: Focus<K>, e: Elem, held: set<Seqno>)
    requires Trail(f, held)
    requires e.outq == f.e.outq && e.lastSent == f.e.lastSent && e.lastAck == f.e.lastAck
    ensures Trail(f.(e := e), held)
  {
    hide Precedes, Unsent, SentKinds;
  }

  lemma {:induction false} Send1Trail<K>(f: Focus<K>, fs: FrameSet, now: nat, cfg: Config, held: set<Seqno>)
    requires Good(f, cfg) && Trail(f, held) && Sendable(fs) && fs.fstype != ACK && fs.fstype != CONNNAK
    ensures Trail(Send1(f, fs, now, cfg).0, held)
    decreases 0, 2
  {
    hide Good, Trail, Xmit, Send1;
    if InShutdown(f.e.state) {
      Send1Refuses(f, fs, now, cfg);
    } else {
      var f1, f2 := Send1Unfolds(f, fs, now, cfg);
      StateKeepsGood(f, f1.e.state, cfg);
      StateTrail(f, f1.e, held);
      AppendKeeps(f1, fs, now, cfg);
      AppendTrail(f1, fs, now, cfg, held);
      XmitTrail(f2, now, cfg, held);
    }
  }

  lemma {:induction false} XmitTrail<K>(f: Focus<K>, now: nat, cfg: Config, held: set<Seqno>)
    requires Good(f, cfg) && Trail(f, held)
    ensures Trail(Xmit(f, now, cfg), held)
    decreases 0, 1
  {
    hide Good, Trail, SendNew, Rexmit, Xmit;
    var f1 := XmitUnfolds(f, now, cfg);
    if |f.e.outq.q| < cfg.window {
      SendNewKeeps(f, 0, cfg);
      SendNewTrail(f, 0, cfg, held);
    }
    StateTrail(f1, f1.e.(nextRexmit := now + cfg.rexmit), held);
    if f1.e.nextRexmit != 0 && now > f1.e.nextRexmit {
      RexmitTrail(f1, now, cfg, held);
    }
  }

  /** Xmit by cases. Its last step never applies: nothing it does makes an empty output queue non-empty. */
  lemma XmitUnfolds<K>(f: Focus<K>, now: nat, cfg: Config) returns (f1: Focus<K>)
    requires Good(f, cfg)
    ensures f1 == if |f.e.outq.q| < cfg.window then SendNew(f, 0) else f
    ensures Xmit(f, now, cfg) ==
            if f1.e.nextRexmit == 0 && f1.e.outq.q != [] then f1.(e := f1.e.(nextRexmit := now + cfg.rexmit))
            else if f1.e.nextRexmit != 0 && now > f1.e.nextRexmit then Rexmit(f1, now, cfg)
            else f1
  {
    hide Good, SendNew, Rexmit;
    f1 := if |f.e.outq.q| < cfg.window then SendNew(f, 0) else f;
    if |f.e.outq.q| < cfg.window { SendNewKeeps(f, 0, cfg); }
    if f1.e.nextRexmit != 0 { RexmitKeeps(f1, now, cfg); }
  }

  lemma {:induction false} RexmitTrail<K>(f: Focus<K>, now: nat, cfg: Config, held: set<Seqno>)
    requires Good(f, cfg) && Trail(f, held) && f.e.nextRexmit != 0
    ensures Trail(Rexmit(f, now, cfg), held)
    decreases 0, 0, 1
  {
    hide Good, Trail, Fsa;
    if f.e.outq.q == [] {
      StateTrail(f, f.e.(nextRexmit := 0), held);
    } else {
      var f1 := f.(e := f.e.(nextRexmit := now + cfg.rexmit));
      StateTrail(f, f1.e, held);
      RescheduleKeeps(f, now, cfg);
      var g := Transmit(f1, f.e.outq.q[0]);
      TransmitHeadKeeps(f1, cfg, held);
      FsaTrail(g, AckTimedOut, None, now, cfg, held);
      var h := Fsa(g, AckTimedOut, None, now, cfg);
      StateTrail(h, h.e.(ackTimeout := now + cfg.ackTimeout), held);
    }
  }

  lemma RescheduleKeeps<K>(f: Focus<K>, now: nat, cfg: Config)
    requires Good(f, cfg) && f.e.nextRexmit != 0
    ensures Good(f.(e := f.e.(nextRexmit := now + cfg.rexmit)), cfg)
  {
    GoodFrame(f, f.(e := f.e.(nextRexmit := now + cfg.rexmit)), cfg);
  }

  lemma TransmitHeadKeeps<K>(f: Focus<K>, cfg: Config, held: set<Seqno>)
    requires Good(f, cfg) && Trail(f, held) && f.e.outq.q != []
    ensures Good(Transmit(f, f.e.outq.q[0]), cfg) && Trail(Transmit(f, f.e.outq.q[0]), held)
  {
    hide Q.InOk, SentOk, UnackedOk, ReadyOk, WindowOk, SentKinds, Precedes, Unsent;
    QueuedIsSent(f, cfg, 0);
    GoodFrame(f, Transmit(f, f.e.outq.q[0]), cfg);
  }

  lemma AckedTrail<K>(f: Focus<K>, s: Seqno, now: nat, cfg: Config, held: set<Seqno>)
    requires Good(f, cfg) && Trail(f, held)
    ensures Trail(Acked(f, s, now, cfg), held)
  {
    hide Q.OutOk, Q.InOk, SentOk, UnackedOk, ReadyOk, WindowOk, SentKinds, Precedes, Unsent, Q.AckThrough, Q.FirstId;
    hide Remove;
    Q.AckThroughOut(f.e.outq, s);
  }

  lemma ReceiveAckTrail<K>(f: Focus<K>, fs: FrameSet, now: nat, cfg: Config, held: set<Seqno>)
    requires Good(f, cfg) && Trail(f, held)
    ensures Trail(ReceiveAck(f, fs, now, cfg), held)
  {
    hide Good, Trail, Xmit, Fsa, Q.AckThrough;
    if Sequenced(fs) {
      var s := GetSeqno(fs).value;
      var g := Acked(f, s, now, cfg);
      AckedKeeps(f, s, now, cfg);
      AckedTrail(f, s, now, cfg, held);
      XmitTrail(g, now, cfg, held);
      XmitKeeps(g, now, cfg);
      var h := Xmit(g, now, cfg);
      AckTimeoutKeeps(h, 0, cfg);
      StateTrail(h, h.e.(ackTimeout := 0), held);
      FsaTrail(h.(e := h.e.(ackTimeout := 0)), OutAllDone, Some(fs), now, cfg, held);
    }
  }

  lemma FileTrail<K>(f: Focus<K>, fs: FrameSet, now: nat, cfg: Config, held: set<Seqno>)
    requires Trail(f, held)
    ensures Trail(File(f, fs, now, cfg), held)
  {
    hide Trail, Q.InqSorted, Fsa, Compare, NextState, AckSeqno;
    var f1 := f.(e := f.e.(inq := Q.InqSorted(f.e.inq, fs).0));
    var f2 := f1.(e := f1.e.(ackTimeout := now + cfg.ackTimeout));
    StartOnlyMoves(f1, Some(fs), now, cfg);
    StartOnlyMoves(f2, Some(fs), now, cfg);
    StateTrail(f, f1.e, held);
    StateTrail(f, f2.e, held);
    StateTrail(f, f1.e.(state := NextState(f1.e.state, GotStart)), held);
    StateTrail(f, f2.e.(state := NextState(f2.e.state, GotStart)), held);
    LastAckHeld(f, held);
    if f1.e.lastAck.Some? { AckSeqnoTrail(f1, f1.e.lastAck.value, held); }
  }

  lemma LastAckHeld<K>(f: Focus<K>, held: set<Seqno>)
    requires Trail(f, held)
    ensures f.e.lastAck.Some? ==> f.e.lastAck.value in held
  {
  }

  lemma ReceiveTrail<K>(f: Focus<K>, fs: FrameSet, now: nat, cfg: Config, held: set<Seqno>)
    requires Good(f, cfg) && Trail(f, held) && Arrivable(fs)
    ensures Trail(Receive(f, fs, now, cfg), held)
  {
    hide Good, Trail, AlmostGood, MarkDue, Xmit, Fsa, File, ReceiveAck;
    if fs.fstype == ACK {
      ReceiveAckTrail(f, fs, now, cfg, held);
    } else if fs.fstype == CONNNAK {
      FsaTrail(f, GotConnNak, Some(fs), now, cfg, held);
    } else {
      FileKeeps(f, fs, now, cfg);
      FileTrail(f, fs, now, cfg, held);
      var g := File(f, fs, now, cfg);
      MarkReadyKeeps(g, fs, cfg);
      MarkReadyTrail(g, fs, held);
      XmitTrail(MarkReady(g, fs), now, cfg, held);
    }
  }

  lemma MarkReadyTrail<K>(f: Focus<K>, fs: FrameSet, held: set<Seqno>)
    requires Trail(f, held)
    ensures Trail(MarkReady(f, fs), held)
  {
    hide SentKinds, Precedes, Unsent;
  }

  /** The sequence numbers that the client holds after a read. */
  function HeldAfterRead(u: Q.Queue, held: set<Seqno>): set<Seqno>
    requires Q.Readable(u)
  {
    if Sequenced(u.q[0]) then held + {GetSeqno(u.q[0]).value} else held
  }

  lemma DequeueTrail<K>(f: Focus<K>, held: set<Seqno>)
    requires Trail(f, held) && Q.Readable(f.e.inq)
    ensures Trail(Dequeue(f), held)
  {
    hide SentKinds, Precedes, Unsent, Remove;
  }

  lemma ReadHeadTrail<K>(f: Focus<K>, now: nat, cfg: Config, held: set<Seqno>)
    requires Good(f, cfg) && Trail(f, held) && Q.Readable(f.e.inq)
    ensures Trail(ReadHead(f, now, cfg), HeldAfterRead(f.e.inq, held))
  {
    hide Good, Trail, Xmit, Fsa, Dequeue;
    var fs := f.e.inq.q[0];
    var more := HeldAfterRead(f.e.inq, held);
    var f1 := Dequeue(f);
    DequeueKeeps(f, cfg);
    DequeueTrail(f, held);
    TrailGrows(f1, held, more);
    FsaKeeps(f1, RcvShutdown, Some(fs), now, cfg);
    FsaTrail(f1, RcvShutdown, Some(fs), now, cfg, more);
    XmitTrail(if fs.fstype == CONNSHUT then Fsa(f1, RcvShutdown, Some(fs), now, cfg) else f1, now, cfg, more);
  }

  /** Clients acknowledge only what read gave them. */
  predicate HonestOp(op: Op, held: set<Seqno>) {
    op.ClientAck? ==> op.s in held
  }

  function HeldAfter<K>(f: Focus<K>, op: Op, held: set<Seqno>): set<Seqno>
    requires Enabled(f, op)
  {
    if op.Read? then HeldAfterRead(f.e.inq, held) else held
  }

  /** Whatever happens, the wire holds only accepted framesets and ACKs for framesets the client was given. */
  lemma StepKeepsTrail<K>(f: Focus<K>, op: Op, now: nat, cfg: Config, held: set<Seqno>)
    requires Good(f, cfg) && Trail(f, held) && Enabled(f, op) && HonestOp(op, held)
    ensures Trail(Step(f, op, now, cfg), HeldAfter(f, op, held))
  {
    hide Good, Trail, Send1, Receive, ReadHead, AckSeqno, Xmit, Fsa, HeldAfterRead;
    match op
    case Send(fs) => Send1Trail(f, fs, now, cfg, held);
    case Arrive(fs) => ReceiveTrail(f, fs, now, cfg, held);
    case Read => ReadHeadTrail(f, now, cfg, held);
    case ClientAck(s) => AckSeqnoTrail(f, s, held);
    case Tick => XmitTrail(f, now, cfg, held);
    case CloseRequest => FsaTrail(f, ReqShutdown, None, now, cfg, held);
    case ShutTimer => FsaTrail(f, ShutTimedOut, None, now, cfg, held);
  }

  // ---------- The window ----------

  /** A new connection has sent nothing. */
  lemma FreshTrail<K>(me: K, ipend: seq<K>, unacked: seq<K>, wire: seq<Packet<K>>, qid: nat, cfg: Config)
    requires forall p :: p in wire ==> p.dest != me
    ensures Trail(Focus(me, FreshElem(cfg.maxq, qid), ipend, unacked, wire, []), {})
  {
  }

  /** Trails survive every run, also when clients acknowledge what they have not been given. */
  lemma {:induction false} RunKeepsTrail<K>(f: Focus<K>, events: seq<Event>, cfg: Config, held: set<Seqno>)
    returns (heard: set<Seqno>)
    requires Good(f, cfg) && Trail(f, held) && Possible(f, events, cfg)
    ensures Good(Exec(f, events, cfg), cfg) && Trail(Exec(f, events, cfg), heard)
    decreases |events|
  {
    hide Good, Trail, Step, Enabled, HeldAfter;
    if events == [] {
      heard := held;
    } else {
      var op, now := events[0].op, events[0].now;
      var more := if op.ClientAck? then held + {op.s} else held;
      TrailGrows(f, held, more);
      StepKeepsGood(f, op, now, cfg);
      StepKeepsTrail(f, op, now, cfg, more);
      heard := RunKeepsTrail(Step(f, op, now, cfg), events[1..], cfg, HeldAfter(f, op, more));
    }
  }

  predicate IsLastSent(e: Elem, fs: FrameSet) {
    e.lastSent.Some? && Sequenced(fs) && Compare(e.lastSent.value, GetSeqno(fs).value) == 0
  }

  /** The queued framesets that are not above the last one sent are a prefix, at most window - 1 long. */
  lemma SentPrefix<K>(f: Focus<K>, cfg: Config) returns (n: nat)
    requires Good(f, cfg)
    ensures n <= |f.e.outq.q| && n <= cfg.window - 1
    ensures forall i :: 0 <= i < |f.e.outq.q| ==> Sequenced(f.e.outq.q[i])
    ensures forall i :: 0 <= i < |f.e.outq.q| ==> (i < n <==> !Unsent(f.e.lastSent, f.e.outq.q[i]))
    ensures n > 0 ==> IsLastSent(f.e, f.e.outq.q[n - 1])
  {
    hide Q.InOk, UnackedOk, ReadyOk, SentOk;
    var first := Q.FirstId(f.e.outq);
    if f.e.lastSent.Some? && f.e.lastSent.value.reqid >= first {
      n := f.e.lastSent.value.reqid + 1 - first;
    } else {
      n := 0;
    }
  }

  /** In every run, the unacknowledged framesets that are on the wire are the oldest n of the output queue, ending at
      the last one sent, with n at most window - 1. Only when n is 0 may the very oldest be on the wire besides,
      retransmitted before the window ever let it through. */
  lemma WindowBound<K>(f: Focus<K>, events: seq<Event>, cfg: Config, held: set<Seqno>) returns (n: nat)
    requires Good(f, cfg) && Trail(f, held) && Possible(f, events, cfg)
    ensures var g := Exec(f, events, cfg);
            && n <= |g.e.outq.q| && n <= cfg.window - 1
            && (n > 0 ==> IsLastSent(g.e, g.e.outq.q[n - 1]))
            && forall i :: 0 <= i < |g.e.outq.q| && i + n > 0 ==> (Packet(g.me, g.e.outq.q[i]) in g.wire <==> i < n)
  {
    hide Good, Exec, Possible, WireOk, SentKinds, Precedes;
    var heard := RunKeepsTrail(f, events, cfg, held);
    n := SentPrefix(Exec(f, events, cfg), cfg);
  }

  // ---------- The history of accepted framesets only grows ----------

  lemma {:induction false} FsaSent<K>(f: Focus<K>, input: Input, fs: Option<FrameSet>, now: nat, cfg: Config)
    requires Good(f, cfg)
    ensures f.sent <= Fsa(f, input, fs, now, cfg).sent
  {
    hide Good, AckMe, Send1, Settle;
    var act := ActionsFor(f.e.state, input);
    var f1 := if act.ackMe then AckMe(f, fs) else f;
    AckMeKeeps(f, fs, cfg);
    AckMeEffect(f, fs);
    Send1Sent(f1, ShutFrameSet(), now, cfg);
    var f2 := if act.sndShut then Send1(f1, ShutFrameSet(), now, cfg).0 else f1;
    assert Settle(f2, act, NextState(f.e.state, input)).sent == f2.sent by {
      SettleSent(f2, act, NextState(f.e.state, input));
    }
  }

  lemma SettleSent<K>(f: Focus<K>, act: Actions, next: State)
    ensures Settle(f, act, next).sent == f.sent
  {
    hide Remove;
  }

  lemma Send1Sent<K>(f: Focus<K>, fs: FrameSet, now: nat, cfg: Config)
    requires Good(f, cfg) && Sendable(fs)
    ensures f.sent <= Send1(f, fs, now, cfg).0.sent
  {
    hide Good, Xmit, Send1;
    if InShutdown(f.e.state) {
      Send1Refuses(f, fs, now, cfg);
    } else {
      var f1, f2 := Send1Unfolds(f, fs, now, cfg);
      StateKeepsGood(f, f1.e.state, cfg);
      AppendKeeps(f1, fs, now, cfg);
      XmitEffect(f2, now, cfg);
    }
  }

  lemma StepSent<K>(f: Focus<K>, op: Op, now: nat, cfg: Config)
    requires Good(f, cfg) && Enabled(f, op)
    ensures f.sent <= Step(f, op, now, cfg).sent
  {
    hide Good, Send1, Receive, ReadHead, AckSeqno, Xmit, Fsa;
    match op
    case Send(fs) => Send1Sent(f, fs, now, cfg);
    case Arrive(fs) => ReceiveSent(f, fs, now, cfg);
    case Read => ReadHeadSent(f, now, cfg);
    case ClientAck(s) => AckSeqnoEffect(f, s);
    case Tick => XmitEffect(f, now, cfg);
    case CloseRequest => FsaSent(f, ReqShutdown, None, now, cfg);
    case ShutTimer => FsaSent(f, ShutTimedOut, None, now, cfg);
  }

  lemma ReceiveSent<K>(f: Focus<K>, fs: FrameSet, now: nat, cfg: Config)
    requires Good(f, cfg) && Arrivable(fs)
    ensures f.sent <= Receive(f, fs, now, cfg).sent
  {
    hide Good, AlmostGood, MarkDue, Xmit, Fsa, File, Q.AckThrough;
    if fs.fstype == ACK {
      if Sequenced(fs) {
        var g := Acked(f, GetSeqno(fs).value, now, cfg);
        AckedKeeps(f, GetSeqno(fs).value, now, cfg);
        XmitEffect(g, now, cfg);
        XmitKeeps(g, now, cfg);
        var h := Xmit(g, now, cfg);
        AckTimeoutKeeps(h, 0, cfg);
        FsaSent(h.(e := h.e.(ackTimeout := 0)), OutAllDone, Some(fs), now, cfg);
      }
    } else if fs.fstype == CONNNAK {
      FsaSent(f, GotConnNak, Some(fs), now, cfg);
    } else {
      FileKeeps(f, fs, now, cfg);
      FileShape(f, fs, now, cfg);
      MarkReadyKeeps(File(f, fs, now, cfg), fs, cfg);
      XmitEffect(MarkReady(File(f, fs, now, cfg), fs), now, cfg);
    }
  }

  lemma ReadHeadSent<K>(f: Focus<K>, now: nat, cfg: Config)
    requires Good(f, cfg) && Q.Readable(f.e.inq)
    ensures f.sent <= ReadHead(f, now, cfg).sent
  {
    hide Good, Xmit, Fsa;
    var fs := f.e.inq.q[0];
    var f1 := Dequeue(f);
    DequeueKeeps(f, cfg);
    FsaKeeps(f1, RcvShutdown, Some(fs), now, cfg);
    FsaSent(f1, RcvShutdown, Some(fs), now, cfg);
    XmitEffect(if fs.fstype == CONNSHUT then Fsa(f1, RcvShutdown, Some(fs), now, cfg) else f1, now, cfg);
  }
}
