/** What a client sends is taken if there is room, and is on the wire at once if the window is open. */
module Transmission {
  import opened FrameSets
  import opened FsProtocolSpec
  import opened FsProtocolInvariants
  import opened FsProtocolShutdown
  import opened Connection
  import opened Trails
  import Q = FsQueueSpec

  /** With fewer framesets queued than the window is wide, all of them are on the wire. */
  ghost predicate WindowUsed<K>(f: Focus<K>, cfg: Config) {
    |f.e.outq.q| < cfg.window ==> OnWire(f, |f.e.outq.q|)
  }

  /** More on the wire, and the same output or none. */
  lemma UsedStays<K>(f: Focus<K>, g: Focus<K>, cfg: Config)
    requires WindowUsed(f, cfg) && g.me == f.me && f.wire <= g.wire
    requires g.e.outq.q == f.e.outq.q || g.e.outq.q == []
    ensures WindowUsed(g, cfg)
  {
  }

  lemma XmitUses<K>(f: Focus<K>, now: nat, cfg: Config, held: set<Seqno>)
    requires Good(f, cfg) && Trail(f, held)
    ensures WindowUsed(Xmit(f, now, cfg), cfg)
  {
    hide Good, Trail, SendNew, Rexmit, Xmit, OnWire, WindowUsed;
    var f1 := XmitUnfolds(f, now, cfg);
    if |f.e.outq.q| < cfg.window {
      SendNewKeeps(f, 0, cfg);
      NothingBefore(f);
      SendNewTrail(f, 0, cfg, held);
    }
    assert WindowUsed(f1, cfg) by { UsedNow(f1, cfg); }
    RexmitEffect(f1, now, cfg);
    UsedStays(f1, Xmit(f, now, cfg), cfg);
  }

  lemma NothingBefore<K>(f: Focus<K>)
    ensures OnWire(f, 0)
  {
  }

  lemma UsedNow<K>(f: Focus<K>, cfg: Config)
    requires |f.e.outq.q| < cfg.window ==> OnWire(f, |f.e.outq.q|)
    ensures WindowUsed(f, cfg)
  {
  }

  lemma Send1Uses<K>(f: Focus<K>, fs: FrameSet, now: nat, cfg: Config, held: set<Seqno>)
    requires Good(f, cfg) && Trail(f, held) && WindowUsed(f, cfg)
    requires Sendable(fs) && fs.fstype != ACK && fs.fstype != CONNNAK
    ensures WindowUsed(Send1(f, fs, now, cfg).0, cfg)
  {
    hide Good, Trail, Xmit, Send1, Append, WindowUsed;
    if InShutdown(f.e.state) {
      Send1Refuses(f, fs, now, cfg);
    } else {
      var f1, f2 := Send1Unfolds(f, fs, now, cfg);
      StateKeepsGood(f, f1.e.state, cfg);
      StateTrail(f, f1.e, held);
      AppendKeeps(f1, fs, now, cfg);
      AppendTrail(f1, fs, now, cfg, held);
      XmitUses(f2, now, cfg, held);
    }
  }

  lemma SettleShape<K>(f: Focus<K>, act: Actions, next: State)
    ensures var g := Settle(f, act, next);
            g.me == f.me && g.wire == f.wire && (g.e.outq.q == f.e.outq.q || g.e.outq.q == [])
  {
    hide Remove;
  }

  lemma FsaUses<K>(f: Focus<K>, input: Input, fs: Option<FrameSet>, now: nat, cfg: Config, held: set<Seqno>)
    requires Good(f, cfg) && Trail(f, held) && WindowUsed(f, cfg)
    requires input == RcvShutdown && fs.Some? && Sequenced(fs.value) ==> GetSeqno(fs.value).value in held
    ensures WindowUsed(Fsa(f, input, fs, now, cfg), cfg)
  {
    hide Good, Trail, Fsa, Send1, AckMe, Settle, NextState, ActionsFor, WindowUsed;
    var f1, f2 := FsaUnfolds(f, input, fs, now, cfg);
    OnlyRcvShutdownAcks(f.e.state, input);
    AckMeKeeps(f, fs, cfg);
    AckMeEffect(f, fs);
    if ActionsFor(f.e.state, input).ackMe { AckMeTrail(f, fs, held); }
    UsedStays(f, f1, cfg);
    Send1Uses(f1, ShutFrameSet(), now, cfg, held);
    SettleShape(f2, ActionsFor(f.e.state, input), NextState(f.e.state, input));
    UsedStays(f2, Settle(f2, ActionsFor(f.e.state, input), NextState(f.e.state, input)), cfg);
  }

  lemma ReceiveAckUses<K>(f: Focus<K>, fs: FrameSet, now: nat, cfg: Config, held: set<Seqno>)
    requires Good(f, cfg) && Trail(f, held) && WindowUsed(f, cfg)
    ensures WindowUsed(ReceiveAck(f, fs, now, cfg), cfg)
  {
    hide Good, Trail, Xmit, Fsa, Q.AckThrough, Remove, WindowUsed;
    if Sequenced(fs) {
      var s := GetSeqno(fs).value;
      var g := Acked(f, s, now, cfg);
      AckedKeeps(f, s, now, cfg);
      AckedTrail(f, s, now, cfg, held);
      if Q.AckThrough(f.e.outq, s).1 < 0 {
        NotApplied(f, s, cfg);
        UsedStays(f, g, cfg);
      } else {
        XmitUses(g, now, cfg, held);
        XmitTrail(g, now, cfg, held);
        XmitKeeps(g, now, cfg);
        var h := Xmit(g, now, cfg);
        AckTimeoutKeeps(h, 0, cfg);
        StateTrail(h, h.e.(ackTimeout := 0), held);
        var h0 := h.(e := h.e.(ackTimeout := 0));
        UsedStays(h, h0, cfg);
        FsaUses(h0, OutAllDone, Some(fs), now, cfg, held);
      }
    }
  }

  lemma NotApplied<K>(f: Focus<K>, s: Seqno, cfg: Config)
    requires Good(f, cfg) && Q.AckThrough(f.e.outq, s).1 < 0
    ensures Q.AckThrough(f.e.outq, s).0 == f.e.outq
  {
    hide Q.AckThrough, SentOk, Q.InOk, UnackedOk, ReadyOk, WindowOk;
    Q.AckThroughOut(f.e.outq, s);
  }

  lemma ReceiveUses<K>(f: Focus<K>, fs: FrameSet, now: nat, cfg: Config, held: set<Seqno>)
    requires Good(f, cfg) && Trail(f, held) && WindowUsed(f, cfg) && Arrivable(fs)
    ensures WindowUsed(Receive(f, fs, now, cfg), cfg)
  {
    hide Good, Trail, AlmostGood, MarkDue, Xmit, Fsa, File, MarkReady, ReceiveAck, WindowUsed;
    if fs.fstype == ACK {
      ReceiveAckUses(f, fs, now, cfg, held);
    } else if fs.fstype == CONNNAK {
      FsaUses(f, GotConnNak, Some(fs), now, cfg, held);
    } else {
      FileKeeps(f, fs, now, cfg);
      FileTrail(f, fs, now, cfg, held);
      MarkReadyKeeps(File(f, fs, now, cfg), fs, cfg);
      MarkReadyTrail(File(f, fs, now, cfg), fs, held);
      XmitUses(MarkReady(File(f, fs, now, cfg), fs), now, cfg, held);
    }
  }

  lemma ReadHeadUses<K>(f: Focus<K>, now: nat, cfg: Config, held: set<Seqno>)
    requires Good(f, cfg) && Trail(f, held) && WindowUsed(f, cfg) && Q.Readable(f.e.inq)
    ensures WindowUsed(ReadHead(f, now, cfg), cfg)
  {
    hide Good, Trail, Xmit, Fsa, Dequeue, WindowUsed;
    var fs := f.e.inq.q[0];
    var more := HeldAfterRead(f.e.inq, held);
    var f1 := Dequeue(f);
    DequeueKeeps(f, cfg);
    DequeueTrail(f, held);
    TrailGrows(f1, held, more);
    FsaKeeps(f1, RcvShutdown, Some(fs), now, cfg);
    FsaTrail(f1, RcvShutdown, Some(fs), now, cfg, more);
    XmitUses(if fs.fstype == CONNSHUT then Fsa(f1, RcvShutdown, Some(fs), now, cfg) else f1, now, cfg, more);
  }

  lemma StepUses<K>(f: Focus<K>, op: Op, now: nat, cfg: Config, held: set<Seqno>)
    requires Good(f, cfg) && Trail(f, held) && WindowUsed(f, cfg) && Enabled(f, op)
    ensures WindowUsed(Step(f, op, now, cfg), cfg)
  {
    hide Good, Trail, Send1, Receive, ReadHead, AckSeqno, Xmit, Fsa, WindowUsed;
    match op
    case Send(fs) => Send1Uses(f, fs, now, cfg, held);
    case Arrive(fs) => ReceiveUses(f, fs, now, cfg, held);
    case Read => ReadHeadUses(f, now, cfg, held);
    case ClientAck(s) => AckSeqnoEffect(f, s); UsedStays(f, AckSeqno(f, s), cfg);
    case Tick => XmitUses(f, now, cfg, held);
    case CloseRequest => FsaUses(f, ReqShutdown, None, now, cfg, held);
    case ShutTimer => FsaUses(f, ShutTimedOut, None, now, cfg, held);
  }

  /** In every run, whenever fewer framesets are queued than the window is wide, all of them have been transmitted. */
  lemma {:induction false} WindowAlwaysUsed<K>(f: Focus<K>, events: seq<Event>, cfg: Config, held: set<Seqno>)
    requires Good(f, cfg) && Trail(f, held) && WindowUsed(f, cfg) && Possible(f, events, cfg)
    ensures var g := Exec(f, events, cfg);
            |g.e.outq.q| < cfg.window ==>
              forall i :: 0 <= i < |g.e.outq.q| ==> Packet(g.me, g.e.outq.q[i]) in g.wire
    decreases |events|
  {
    hide Good, Trail, Step, Enabled, HeldAfter;
    if events == [] {
    } else {
      var op, now := events[0].op, events[0].now;
      var more := if op.ClientAck? then held + {op.s} else held;
      TrailGrows(f, held, more);
      StepKeepsGood(f, op, now, cfg);
      StepKeepsTrail(f, op, now, cfg, more);
      StepUses(f, op, now, cfg, more);
      WindowAlwaysUsed(Step(f, op, now, cfg), events[1..], cfg, HeldAfter(f, op, more));
    }
  }

  /** A send is taken, as the next frameset of the session, exactly if the connection is not shutting down and
      there is room; the client is told that it failed exactly if there was none. */
  lemma SendIsTaken<K>(f: Focus<K>, fs: FrameSet, now: nat, cfg: Config) returns (x: FrameSet)
    requires Good(f, cfg) && Sendable(fs)
    ensures var (g, ok) := Send1(f, fs, now, cfg);
            && (ok <==> InShutdown(f.e.state) || !Q.Full(f.e.outq))
            && g.sent == if !InShutdown(f.e.state) && !Q.Full(f.e.outq) then f.sent + [x] else f.sent
    ensures x.fstype == fs.fstype && x.body == fs.body && Sequenced(x)
    ensures GetSeqno(x).value.reqid == f.e.outq.next
    ensures GetSeqno(x).value.session == if f.e.outq.session == 0 then cfg.processSession else f.e.outq.session
  {
    hide Good, Xmit, Send1, Q.Full;
    x := Q.Stamp(f.e.outq, fs, cfg.processSession);
    if InShutdown(f.e.state) {
      Send1Refuses(f, fs, now, cfg);
    } else {
      var f1, f2 := Send1Unfolds(f, fs, now, cfg);
      StateKeepsGood(f, f1.e.state, cfg);
      AppendKeeps(f1, fs, now, cfg);
      XmitEffect(f2, now, cfg);
    }
  }
}
