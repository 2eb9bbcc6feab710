/** The sender's backlog bounds the receiver's: the frameset that the receiver waits for always finds room. */
module Backlog {
  import opened FrameSets
  import opened FsProtocolSpec
  import opened FsProtocolInvariants
  import opened FsProtocolShutdown
  import opened Connection
  import opened ReadyMarks
  import opened Trails
  import opened Delivery
  import Q = FsQueueSpec

  // ---------- What one operation does to an output queue ----------

  /** The queue stays in its session and may lose framesets below an id, or it starts again in a later session. */
  predicate Drops(u: Q.Queue, v: Q.Queue, below: nat)
    requires Q.OutOk(u) && Q.OutOk(v)
  {
    if v.session == u.session then Q.FirstId(v) == Q.FirstId(u) || Q.FirstId(u) < Q.FirstId(v) <= below
    else v.session > u.session && Q.FirstId(v) == 1
  }

  /** Whatever was enqueued found room in the queue as it was. */
  ghost predicate Fits(u: Q.Queue, sent: seq<FrameSet>, more: seq<FrameSet>)
    requires Q.OutOk(u)
  {
    && sent <= more
    && forall i :: |sent| <= i < |more| ==>
         && Sequenced(more[i]) && SessionOf(more[i]) >= u.session
         && (u.maxlen != 0 ==>
               Q.Height(more[i]) < (if SessionOf(more[i]) == u.session then Q.FirstId(u) else 1) + u.maxlen)
  }

  lemma CloseDrops(u: Q.Queue, w: Q.Queue, v: Q.Queue, below: nat)
    requires Q.OutOk(u) && Q.OutOk(w) && Q.OutOk(v) && Drops(u, w, below)
    requires v == w || (v.q == [] && v.next == 1 && v.session == if w.session == 0 then 0 else w.session + 1)
    ensures Drops(u, v, below)
  {
  }

  lemma GoodOut<K>(f: Focus<K>, cfg: Config)
    requires Good(f, cfg)
    ensures Q.OutOk(f.e.outq) && f.e.outq.maxlen == cfg.maxq
  {
  }

  lemma XmitDrops<K>(f: Focus<K>, now: nat, cfg: Config, u: Q.Queue, below: nat)
    requires Good(f, cfg) && Q.OutOk(u) && Q.OutOk(f.e.outq) && Drops(u, f.e.outq, below)
    ensures var g := Xmit(f, now, cfg);
            Good(g, cfg) && Q.OutOk(g.e.outq) && Drops(u, g.e.outq, below) && g.sent == f.sent
  {
    hide Good, Xmit, Drops, Q.OutOk, Emptied, Q.FirstId;
    XmitKeeps(f, now, cfg);
    GoodOut(Xmit(f, now, cfg), cfg);
    XmitEffect(f, now, cfg);
    CloseDrops(u, f.e.outq, Xmit(f, now, cfg).e.outq, below);
  }

  lemma SettleDrops<K>(f: Focus<K>, act: Actions, next: State, cfg: Config, u: Q.Queue, below: nat)
    requires Good(f, cfg) && Q.OutOk(u) && Q.OutOk(f.e.outq) && Drops(u, f.e.outq, below)
    ensures var g := Settle(f, act, next);
            Good(g, cfg) && Q.OutOk(g.e.outq) && Drops(u, g.e.outq, below) && g.sent == f.sent
  {
    hide Good, Drops, Q.OutOk, Q.FirstId, Remove;
    SettleKeeps(f, act, next, cfg);
    GoodOut(Settle(f, act, next), cfg);
    CloseDrops(u, f.e.outq, Settle(f, act, next).e.outq, below);
  }

  lemma EnqFits(u: Q.Queue, sent: seq<FrameSet>, fs: FrameSet, processSession: nat)
    requires Q.OutOk(u) && Sendable(fs) && processSession > 0 && !Q.Full(u)
    ensures var v := Q.Enq(u, fs, processSession).0;
            Q.OutOk(v) && Drops(u, v, 0) && Fits(u, sent, sent + [Q.Stamp(u, fs, processSession)])
  {
    hide Q.OutOk;
    Q.EnqOut(u, fs, processSession);
    OutBounds(u);
  }

  lemma OutBounds(u: Q.Queue)
    requires Q.OutOk(u)
    ensures |u.q| < u.next && (u.session == 0 ==> u.next == 1)
  {
  }

  lemma AppendFits<K>(f: Focus<K>, fs: FrameSet, now: nat, cfg: Config)
    requires Good(f, cfg) && Sendable(fs)
    ensures var g := Append(f, fs, now, cfg).0;
            && Good(g, cfg) && Q.OutOk(f.e.outq) && Q.OutOk(g.e.outq)
            && Drops(f.e.outq, g.e.outq, 0) && Fits(f.e.outq, f.sent, g.sent)
  {
    hide Q.InOk, Chained, SentOk, UnackedOk, ReadyOk, WindowOk, Q.OutOk, Drops, Fits;
    AppendKeeps(f, fs, now, cfg);
    if Q.Full(f.e.outq) {
      SameFits(f.e.outq, f.sent);
    } else {
      EnqFits(f.e.outq, f.sent, fs, cfg.processSession);
    }
  }

  lemma SameFits(u: Q.Queue, sent: seq<FrameSet>)
    requires Q.OutOk(u)
    ensures Drops(u, u, 0) && Fits(u, sent, sent)
  {
  }

  lemma Send1Fits<K>(f: Focus<K>, fs: FrameSet, now: nat, cfg: Config)
    requires Good(f, cfg) && Sendable(fs)
    ensures var g := Send1(f, fs, now, cfg).0;
            && Good(g, cfg) && Q.OutOk(f.e.outq) && Q.OutOk(g.e.outq)
            && Drops(f.e.outq, g.e.outq, 0) && Fits(f.e.outq, f.sent, g.sent)
  {
    hide Good, Xmit, Send1, Drops, Fits, Q.OutOk;
    GoodOut(f, cfg);
    if InShutdown(f.e.state) {
      Send1Refuses(f, fs, now, cfg);
      SameFits(f.e.outq, f.sent);
    } else {
      var f1, f2 := Send1Unfolds(f, fs, now, cfg);
      StateKeepsGood(f, f1.e.state, cfg);
      AppendFits(f1, fs, now, cfg);
      XmitDrops(f2, now, cfg, f.e.outq, 0);
    }
  }

  lemma FsaFits<K>(f: Focus<K>, input: Input, fs: Option<FrameSet>, now: nat, cfg: Config)
    requires Good(f, cfg)
    ensures var g := Fsa(f, input, fs, now, cfg);
            && Good(g, cfg) && Q.OutOk(f.e.outq) && Q.OutOk(g.e.outq)
            && Drops(f.e.outq, g.e.outq, 0) && Fits(f.e.outq, f.sent, g.sent)
            && (!MaySendShut(input) ==> g.sent == f.sent)
  {
    hide Good, Send1, AckMe, Settle, NextState, ActionsFor, Drops, Fits, Q.OutOk;
    OnlyShutdownInputsSendShut(f.e.state, input);
    GoodOut(f, cfg);
    SameFits(f.e.outq, f.sent);
    var act := ActionsFor(f.e.state, input);
    var f1 := if act.ackMe then AckMe(f, fs) else f;
    AckMeKeeps(f, fs, cfg);
    AckMeEffect(f, fs);
    Send1Fits(f1, ShutFrameSet(), now, cfg);
    var f2 := if act.sndShut then Send1(f1, ShutFrameSet(), now, cfg).0 else f1;
    SettleDrops(f2, act, NextState(f.e.state, input), cfg, f.e.outq, 0);
  }

  /** The ids that an ACK may remove from an output queue lie below this. */
  function AckedBelow(u: Q.Queue, fs: FrameSet): nat {
    if fs.fstype == ACK && Sequenced(fs) && GetSeqno(fs).value.session == u.session
    then GetSeqno(fs).value.reqid + 1 else 0
  }

  lemma AckedDrops<K>(f: Focus<K>, fs: FrameSet, now: nat, cfg: Config)
    requires Good(f, cfg) && fs.fstype == ACK && Sequenced(fs)
    ensures var g := Acked(f, GetSeqno(fs).value, now, cfg);
            && Good(g, cfg) && Q.OutOk(f.e.outq) && Q.OutOk(g.e.outq)
            && Drops(f.e.outq, g.e.outq, AckedBelow(f.e.outq, fs)) && g.sent == f.sent
  {
    hide Good, Q.OutOk, Q.AckThrough, Remove;
    AckedKeeps(f, GetSeqno(fs).value, now, cfg);
    GoodOut(f, cfg);
    Q.AckThroughOut(f.e.outq, GetSeqno(fs).value);
  }

  /** Consecutive drops, the second of which removes nothing by an ACK. */
  lemma DropsThen(u: Q.Queue, w: Q.Queue, v: Q.Queue, below: nat)
    requires Q.OutOk(u) && Q.OutOk(w) && Q.OutOk(v)
    requires Drops(u, w, below) && Drops(w, v, 0)
    ensures Drops(u, v, below)
  {
    hide Q.OutOk;
  }

  lemma ReceiveAckDrops<K>(f: Focus<K>, fs: FrameSet, now: nat, cfg: Config)
    requires Good(f, cfg) && fs.fstype == ACK
    ensures var g := ReceiveAck(f, fs, now, cfg);
            && Good(g, cfg) && Q.OutOk(f.e.outq) && Q.OutOk(g.e.outq)
            && Drops(f.e.outq, g.e.outq, AckedBelow(f.e.outq, fs)) && g.sent == f.sent
  {
    hide Good, Q.OutOk, Q.AckThrough, Remove, Drops, Xmit, Fsa, AckedBelow;
    GoodOut(f, cfg);
    if Sequenced(fs) {
      var s := GetSeqno(fs).value;
      var below := AckedBelow(f.e.outq, fs);
      var g := Acked(f, s, now, cfg);
      AckedDrops(f, fs, now, cfg);
      XmitDrops(g, now, cfg, f.e.outq, below);
      var h := Xmit(g, now, cfg);
      AckTimeoutKeeps(h, 0, cfg);
      var h0 := h.(e := h.e.(ackTimeout := 0));
      FsaFits(h0, OutAllDone, Some(fs), now, cfg);
      DropsThen(f.e.outq, h0.e.outq, Fsa(h0, OutAllDone, Some(fs), now, cfg).e.outq, below);
    } else {
      UnsequencedAckDrops(f.e.outq, fs);
    }
  }

  lemma UnsequencedAckDrops(u: Q.Queue, fs: FrameSet)
    requires Q.OutOk(u) && !Sequenced(fs)
    ensures Drops(u, u, AckedBelow(u, fs))
  {
  }

  lemma ReceiveFits<K>(f: Focus<K>, fs: FrameSet, now: nat, cfg: Config)
    requires Good(f, cfg) && Arrivable(fs)
    ensures var g := Receive(f, fs, now, cfg);
            && Good(g, cfg) && Q.OutOk(f.e.outq) && Q.OutOk(g.e.outq)
            && Drops(f.e.outq, g.e.outq, AckedBelow(f.e.outq, fs)) && Fits(f.e.outq, f.sent, g.sent)
  {
    hide Good, AlmostGood, MarkDue, Q.OutOk, Drops, Fits, Xmit, Fsa, ReceiveAck, File;
    GoodOut(f, cfg);
    SameFits(f.e.outq, f.sent);
    if fs.fstype == ACK {
      ReceiveAckDrops(f, fs, now, cfg);
    } else if fs.fstype == CONNNAK {
      FsaFits(f, GotConnNak, Some(fs), now, cfg);
    } else {
      FileKeeps(f, fs, now, cfg);
      FileShape(f, fs, now, cfg);
      var g := MarkReady(File(f, fs, now, cfg), fs);
      MarkReadyKeeps(File(f, fs, now, cfg), fs, cfg);
      XmitDrops(g, now, cfg, f.e.outq, 0);
    }
  }

  lemma ReadHeadFits<K>(f: Focus<K>, now: nat, cfg: Config)
    requires Good(f, cfg) && Q.Readable(f.e.inq)
    ensures var g := ReadHead(f, now, cfg);
            && Good(g, cfg) && Q.OutOk(f.e.outq) && Q.OutOk(g.e.outq)
            && Drops(f.e.outq, g.e.outq, 0) && Fits(f.e.outq, f.sent, g.sent)
  {
    hide Good, Q.OutOk, Drops, Fits, Xmit, Fsa;
    GoodOut(f, cfg);
    SameFits(f.e.outq, f.sent);
    var fs := f.e.inq.q[0];
    var f1 := Dequeue(f);
    DequeueKeeps(f, cfg);
    FsaFits(f1, RcvShutdown, Some(fs), now, cfg);
    XmitDrops(if fs.fstype == CONNSHUT then Fsa(f1, RcvShutdown, Some(fs), now, cfg) else f1, now, cfg, f.e.outq, 0);
  }

  function OpAckedBelow(u: Q.Queue, op: Op): nat {
    if op.Arrive? then AckedBelow(u, op.fs) else 0
  }

  /** Every operation enqueues only what fits, and only an ACK for the session takes framesets off the queue. */
  lemma StepFits<K>(f: Focus<K>, op: Op, now: nat, cfg: Config)
    requires Good(f, cfg) && Enabled(f, op)
    ensures var g := Step(f, op, now, cfg);
            && Good(g, cfg) && Q.OutOk(f.e.outq) && Q.OutOk(g.e.outq)
            && Drops(f.e.outq, g.e.outq, OpAckedBelow(f.e.outq, op)) && Fits(f.e.outq, f.sent, g.sent)
  {
    hide Good, Send1, Receive, ReadHead, AckSeqno, Xmit, Fsa, Drops, Fits, Q.OutOk, AckedBelow;
    GoodOut(f, cfg);
    SameFits(f.e.outq, f.sent);
    match op
    case Send(fs) => Send1Fits(f, fs, now, cfg);
    case Arrive(fs) => ReceiveFits(f, fs, now, cfg);
    case Read => ReadHeadFits(f, now, cfg);
    case ClientAck(s) => AckSeqnoEffect(f, s); AckSeqnoKeeps(f, s, cfg);
    case Tick => XmitDrops(f, now, cfg, f.e.outq, 0);
    case CloseRequest => FsaFits(f, ReqShutdown, None, now, cfg);
    case ShutTimer => FsaFits(f, ShutTimedOut, None, now, cfg);
  }

  // ---------- Two endpoints ----------

  /** The oldest id of a session that is not known to be acknowledged. */
  function BaseOf(base: map<nat, int>, session: nat): int {
    if session in base then base[session] else 1
  }

  /** Nothing was ever enqueued more than a full queue beyond the oldest unacknowledged id of its session. */
  ghost predicate Bounded(sent: seq<FrameSet>, base: map<nat, int>, limit: nat) {
    forall i :: 0 <= i < |sent| && Sequenced(sent[i]) ==> Q.Height(sent[i]) < BaseOf(base, SessionOf(sent[i])) + limit
  }

  /** The base map covers sessions up to the current one and tells where its queue starts. */
  ghost predicate BaseOk(u: Q.Queue, base: map<nat, int>) {
    && Q.OutOk(u)
    && (forall session :: session in base ==> session <= u.session)
    && BaseOf(base, u.session) == Q.FirstId(u)
  }

  /** A session's acknowledged framesets lie below something that was handed out. */
  ghost predicate BaseHanded(base: map<nat, int>, handed: set<Handed>) {
    forall session :: session in base && base[session] > 1 ==> HandedFrom(handed, session, base[session] - 1)
  }

  ghost predicate HandedFrom(handed: set<Handed>, session: nat, reqid: int) {
    exists d :: d in handed && Sequenced(d.fs) && SessionOf(d.fs) == session && Q.Height(d.fs) >= reqid
  }

  /** A receiver's session is one in which its peer has enqueued something. */
  ghost predicate SessionKnown(u: Q.Queue, sent: seq<FrameSet>) {
    u.session == 0 || exists x :: x in sent && Sequenced(x) && SessionOf(x) == u.session
  }

  ghost predicate BacklogOk<K>(l: Link<K>, cs: Config) {
    && SessionKnown(l.rcv.e.inq, l.snd.sent)
    && (cs.maxq != 0 ==> Bounded(l.snd.sent, l.base, cs.maxq))
    && BaseOk(l.snd.e.outq, l.base)
    && BaseHanded(l.base, l.handed)
  }

  lemma StepBounded(u: Q.Queue, v: Q.Queue, sent: seq<FrameSet>, more: seq<FrameSet>, base: map<nat, int>, below: nat)
    requires Q.OutOk(v) && BaseOk(u, base) && Drops(u, v, below) && Fits(u, sent, more)
    ensures BaseOk(v, base[v.session := Q.FirstId(v)])
    ensures u.maxlen != 0 && Bounded(sent, base, u.maxlen) ==> Bounded(more, base[v.session := Q.FirstId(v)], u.maxlen)
  {
    hide Q.OutOk;
    assert forall i :: 0 <= i < |sent| ==> more[i] == sent[i];
  }

  lemma HandedFromLower(handed: set<Handed>, session: nat, reqid: int, lower: int)
    requires HandedFrom(handed, session, reqid) && lower <= reqid
    ensures HandedFrom(handed, session, lower)
  {
  }

  lemma SenderBacklog<K>(l: Link<K>, m: Move, cs: Config, cr: Config)
    requires Inv(l, cs, cr) && BacklogOk(l, cs) && MoveOk(l, m) && m.side == Sender
    ensures BacklogOk(Apply(l, m, cs, cr), cs)
  {
    hide Good, Trail, Step, HandedOk, RetiredOk, HandedFrom, CurrentHanded, EpochOk, QueuedIsSentByPeer, Enabled;
    hide HeldAfter, HandedOut;
    hide Drops, Fits, Bounded, Q.OutOk, BaseOk, Q.FirstId;
    var u := l.snd.e.outq;
    StepSent(l.snd, m.op, m.now, cs);
    StepFits(l.snd, m.op, m.now, cs);
    GoodOut(l.snd, cs);
    var g := Step(l.snd, m.op, m.now, cs);
    StepBounded(u, g.e.outq, l.snd.sent, g.sent, l.base, OpAckedBelow(u, m.op));
    SenderBaseHanded(l, m, cs, cr, g.e.outq);
    assert Q.FirstId(g.e.outq) == g.e.outq.next - |g.e.outq.q| by { FirstIdIs(g.e.outq); }
  }

  lemma FirstIdIs(u: Q.Queue)
    requires Q.OutOk(u)
    ensures Q.FirstId(u) == u.next - |u.q|
  {
  }

  lemma SenderBaseHanded<K>(l: Link<K>, m: Move, cs: Config, cr: Config, v: Q.Queue)
    requires Inv(l, cs, cr) && BacklogOk(l, cs) && MoveOk(l, m) && m.side == Sender
    requires Q.OutOk(v) && Drops(l.snd.e.outq, v, OpAckedBelow(l.snd.e.outq, m.op))
    ensures BaseHanded(l.base[v.session := Q.FirstId(v)], l.handed)
  {
    hide Good, HandedOk, RetiredOk, HandedFrom, CurrentHanded, EpochOk, QueuedIsSentByPeer, Enabled;
    hide Bounded, Q.OutOk, HandedFrom, WireOk, SentKinds, PrefixOnWire;
    var u := l.snd.e.outq;
    if v.session == u.session && Q.FirstId(v) > Q.FirstId(u) {
      var s := GetSeqno(m.op.fs).value;
      AckIsHeld(l, m.op.fs);
      HeldGivesHanded(l.rcvHeld, l.handed, s);
      HandedFromLower(l.handed, u.session, s.reqid, Q.FirstId(v) - 1);
    }
  }

  lemma HeldGivesHanded(held: set<Seqno>, handed: set<Handed>, s: Seqno)
    requires HeldHanded(held, handed) && s in held
    ensures HandedFrom(handed, s.session, s.reqid)
  {
    var d :| d in handed && GetSeqno(d.fs) == Some(s);
  }

  lemma ReceiverBacklog<K>(l: Link<K>, m: Move, cs: Config, cr: Config)
    requires Inv(l, cs, cr) && BacklogOk(l, cs) && MoveOk(l, m) && m.side == Receiver
    ensures BacklogOk(Apply(l, m, cs, cr), cs)
  {
    hide Inv, MoveOk, Step, Enabled, HeldAfter, HandedOut, Bounded, BaseOk, SessionKnown;
    var r := Apply(l, m, cs, cr);
    ReceiverKnown(l, m, cs, cr);
    forall session | session in l.base && l.base[session] > 1
      ensures HandedFrom(r.handed, session, l.base[session] - 1)
    {
      assert HandedFrom(l.handed, session, l.base[session] - 1);
    }
  }

  lemma ReceiverKnown<K>(l: Link<K>, m: Move, cs: Config, cr: Config)
    requires Inv(l, cs, cr) && MoveOk(l, m) && m.side == Receiver && SessionKnown(l.rcv.e.inq, l.snd.sent)
    ensures SessionKnown(Apply(l, m, cs, cr).rcv.e.inq, l.snd.sent)
  {
    hide Good, Trail, Step, HandedOk, RetiredOk, HeldHanded, CurrentHanded, EpochOk, QueuedIsSentByPeer, Enabled, Filed;
    StepMid(l.rcv, m.op, m.now, cr);
    if m.op.Arrive? && m.op.fs.fstype != ACK && m.op.fs.fstype != CONNNAK {
      FiledFrom(l.rcv.e.inq, m.op.fs);
      if Sequenced(m.op.fs) { ArrivedIsSent(l.snd, l.sndHeld, m.op.fs); }
    }
  }

  lemma FiledFrom(u: Q.Queue, fs: FrameSet)
    ensures Filed(u, fs).session == u.session || (Sequenced(fs) && Filed(u, fs).session == SessionOf(fs))
  {
    hide Q.InsertSorted;
  }

  /** Work of other connections and a new life of the receiving one leave the sender and its history alone. */
  lemma OtherTurnsBacklog<K>(l: Link<K>, t: Turn<K>, cs: Config, cr: Config)
    requires BacklogOk(l, cs) && TurnOk(l, t) && !t.Own?
    ensures BacklogOk(Take(l, t, cs, cr), cs)
  {
    hide Untouched, Bounded, BaseOk, BaseHanded;
  }

  lemma TurnBacklog<K>(l: Link<K>, t: Turn<K>, cs: Config, cr: Config)
    requires Inv(l, cs, cr) && BacklogOk(l, cs) && TurnOk(l, t)
    ensures BacklogOk(Take(l, t, cs, cr), cs)
  {
    hide Inv, BacklogOk, MoveOk, Untouched, Apply;
    if !t.Own? {
      OtherTurnsBacklog(l, t, cs, cr);
    } else if t.m.side == Sender {
      SenderBacklog(l, t.m, cs, cr);
    } else {
      ReceiverBacklog(l, t.m, cs, cr);
    }
  }

  lemma {:induction false} RunKeepsBacklog<K>(l: Link<K>, turns: seq<Turn<K>>, cs: Config, cr: Config)
    requires Inv(l, cs, cr) && BacklogOk(l, cs) && TurnsOk(l, turns, cs, cr)
    ensures BacklogOk(Run(l, turns, cs, cr), cs)
    decreases |turns|
  {
    hide Inv, Take, TurnOk, BacklogOk;
    if turns == [] {
    } else {
      TurnKeeps(l, turns[0], cs, cr);
      TurnBacklog(l, turns[0], cs, cr);
      RunKeepsBacklog(Take(l, turns[0], cs, cr), turns[1..], cs, cr);
    }
  }

  lemma IdleBacklog<K>(toRcv: K, toSnd: K, qid: nat, cs: Config, cr: Config)
    ensures BacklogOk(Idle(toRcv, toSnd, qid, cs, cr), cs)
  {
  }

  // ---------- Room for the awaited frameset ----------

  ghost predicate AllSequenced(q: seq<FrameSet>) {
    forall i :: 0 <= i < |q| ==> Sequenced(q[i])
  }

  /** The last of n ascending framesets that all lie above next is at least n above it. */
  lemma {:induction false} AscendingReaches(q: seq<FrameSet>, next: nat, n: nat)
    requires Q.Ascending(q) && AllSequenced(q) && 0 < n <= |q|
    requires Q.Height(q[0]) > next
    ensures Q.Height(q[n - 1]) >= next + n
  {
    if n == 1 {
    } else {
      AscendingReaches(q, next, n - 1);
      assert Q.Height(q[n - 2]) < Q.Height(q[n - 1]);
    }
  }

  /** Without a session there is nothing sequenced to queue. */
  lemma NoSessionEmpty(u: Q.Queue)
    requires Q.InOk(u) && u.session == 0
    ensures AllSequenced(u.q) <==> u.q == []
  {
    if u.q != [] { assert !Sequenced(u.q[0]); }
  }

  /** An input queue that holds the expected id has it at the head. */
  lemma QueuedIsHead(u: Q.Queue)
    requires Q.InOk(u) && AllSequenced(u.q)
    ensures Q.Queued(u.q, u.next) <==> Q.Readable(u)
  {
    forall i | 0 < i < |u.q| ensures Q.Height(u.q[i]) > u.next {
      assert Sequenced(u.q[0]) && Q.Height(u.q[0]) >= u.next;
    }
    if Q.Queued(u.q, u.next) {
      var i :| 0 <= i < |u.q| && Q.Height(u.q[i]) == u.next;
      assert i == 0;
    } else if u.q != [] {
      assert Q.Height(u.q[0]) != u.next;
    }
  }

  /** When the frameset that a receiver waits for finds room, told from its queue before the arrival: it is accepted or
      queued already exactly if it opens a session, or there is room for another one, or the queue can be read. */
  lemma AwaitedFitsIff(u: Q.Queue, fs: FrameSet)
    requires Q.InOk(u) && AllSequenced(u.q)
    requires Sequenced(fs) && SessionOf(fs) != 0 && SessionOf(fs) >= u.session
    requires Q.Height(fs) == Q.EnterSession(u, GetSeqno(fs).value).next
    ensures Q.InqSorted(u, fs).1 <==> SessionOf(fs) != u.session || !Q.Full(u)
    ensures Q.InqSorted(u, fs).1 || Q.Queued(u.q, u.next) <==>
            SessionOf(fs) != u.session || !Q.Full(u) || Q.Readable(u)
  {
    hide Q.InsertSorted, Q.Queued, Q.Readable;
    QueuedIsHead(u);
    if u.session == 0 { NoSessionEmpty(u); }
  }

  /** A full queue that cannot be read holds something that its sender could only enqueue after an ACK for the
      awaited id. */
  lemma FullMeansAcked<K>(l: Link<K>, cs: Config)
    requires BacklogOk(l, cs) && cs.maxq != 0
    requires QueuedIsSentByPeer(l.rcv.e.inq, l.snd.sent) && Q.InOk(l.rcv.e.inq) && AllSequenced(l.rcv.e.inq.q)
    requires l.rcv.e.inq.maxlen == cs.maxq && Q.Full(l.rcv.e.inq) && !Q.Readable(l.rcv.e.inq)
    ensures BaseOf(l.base, l.rcv.e.inq.session) > l.rcv.e.inq.next
    ensures HandedFrom(l.handed, l.rcv.e.inq.session, l.rcv.e.inq.next)
  {
    hide BaseOk, HandedFrom, SessionKnown;
    var u := l.rcv.e.inq;
    assert Q.Height(u.q[0]) > u.next;
    AscendingReaches(u.q, u.next, |u.q|);
    var y := u.q[|u.q| - 1];
    assert y in l.snd.sent;
    var i :| 0 <= i < |l.snd.sent| && l.snd.sent[i] == y;
    var b := BaseOf(l.base, u.session);
    assert SessionOf(y) == u.session && b > u.next;
    HandedFromLower(l.handed, u.session, b - 1, u.next);
  }

  /** With equal limits and only sequenced framesets queued, as long as the sender still holds the frameset that the
      receiver waits for, its arrival is accepted, or it is in the receiver's queue already. */
  lemma AwaitedFindsRoom<K>(l: Link<K>, turns: seq<Turn<K>>, fs: FrameSet, cs: Config, cr: Config)
    requires Inv(l, cs, cr) && BacklogOk(l, cs) && TurnsOk(l, turns, cs, cr)
    requires cs.maxq == cr.maxq && cs.maxq != 0
    requires var r := Run(l, turns, cs, cr);
             && AllSequenced(r.rcv.e.inq.q)
             && fs in r.snd.e.outq.q && Sequenced(fs)
             && Q.Height(fs) == Q.EnterSession(r.rcv.e.inq, GetSeqno(fs).value).next
    ensures var u := Run(l, turns, cs, cr).rcv.e.inq;
            Q.InqSorted(u, fs).1 || fs in u.q
  {
    hide Good, Trail, HandedOk, CurrentHanded, EpochOk, HeldHanded, RetiredOk, HandedFrom, Bounded, BaseOk, BaseHanded;
    hide Q.InsertSorted, Q.Queued, Compare, SessionKnown, Q.Readable, Q.Full;
    RunKeepsInv(l, turns, cs, cr);
    RunKeepsBacklog(l, turns, cs, cr);
    var r := Run(l, turns, cs, cr);
    var u := r.rcv.e.inq;
    GoodChained(r.rcv, cr);
    assert u.maxlen == cr.maxq by { GoodIn(r.rcv, cr); }
    HeldByQueue(r, fs, cs);
    AwaitedFitsIff(u, fs);
    if SessionOf(fs) == u.session && Q.Full(u) {
      if !Q.Readable(u) { FullMeansAcked(r, cs); }
      QueuedIsAwaited(r, fs, cs);
    }
  }

  /** What a sender holds is in its current session, which the receiver has not passed, and not below the queue's
      start. */
  lemma HeldByQueue<K>(l: Link<K>, fs: FrameSet, cs: Config)
    requires Good(l.snd, cs) && BacklogOk(l, cs) && fs in l.snd.e.outq.q
    ensures Sequenced(fs) && fs in l.snd.sent && SessionOf(fs) == l.snd.e.outq.session
    ensures l.rcv.e.inq.session <= l.snd.e.outq.session != 0
    ensures BaseOf(l.base, SessionOf(fs)) <= Q.Height(fs)
  {
    hide Q.InOk, UnackedOk, ReadyOk, WindowOk, Chained, Bounded, BaseHanded;
    var u := l.snd.e.outq;
    var i :| 0 <= i < |u.q| && u.q[i] == fs;
    QueuedIsSent(l.snd, cs, i);
    if l.rcv.e.inq.session != 0 {
      var x :| x in l.snd.sent && Sequenced(x) && SessionOf(x) == l.rcv.e.inq.session;
      SessionsRise(l.snd, x, cs);
    }
  }

  /** No accepted frameset is in a later session than the queue. */
  lemma SessionsRise<K>(f: Focus<K>, x: FrameSet, cfg: Config)
    requires Good(f, cfg) && x in f.sent
    ensures Sequenced(x) && SessionOf(x) <= f.e.outq.session
  {
    hide Q.InOk, Q.OutOk, UnackedOk, ReadyOk, WindowOk;
    var n := |f.sent| - 1;
    var i :| 0 <= i < |f.sent| && f.sent[i] == x;
    if i < n { NoIdReused(f.sent, i, n); }
  }

  /** A queued frameset with the awaited id is the awaited one. */
  lemma QueuedIsAwaited<K>(l: Link<K>, fs: FrameSet, cs: Config)
    requires Good(l.snd, cs) && QueuedIsSentByPeer(l.rcv.e.inq, l.snd.sent) && Q.InOk(l.rcv.e.inq)
    requires fs in l.snd.sent && Sequenced(fs) && SessionOf(fs) == l.rcv.e.inq.session
            && Q.Height(fs) == l.rcv.e.inq.next
    requires Q.Queued(l.rcv.e.inq.q, l.rcv.e.inq.next)
    ensures fs in l.rcv.e.inq.q
  {
    hide Good, Chained;
    var u := l.rcv.e.inq;
    var i :| 0 <= i < |u.q| && Q.Height(u.q[i]) == u.next;
    GoodSent(l.snd, cs);
    SentIsUnique(l.snd.sent, fs, u.q[i]);
  }

  /** The same for any frameset of the session, held by the sender or not, if the receiver has not left it before. */
  lemma FirstVisitFindsRoom<K>(l: Link<K>, turns: seq<Turn<K>>, fs: FrameSet, cs: Config, cr: Config)
    requires Inv(l, cs, cr) && BacklogOk(l, cs) && TurnsOk(l, turns, cs, cr)
    requires cs.maxq == cr.maxq && cs.maxq != 0
    requires var u := Run(l, turns, cs, cr).rcv.e.inq;
             && AllSequenced(u.q) && u.session !in Run(l, turns, cs, cr).retired
             && Sequenced(fs) && SessionOf(fs) != 0 && SessionOf(fs) >= u.session
             && Q.Height(fs) == Q.EnterSession(u, GetSeqno(fs).value).next
    ensures var u := Run(l, turns, cs, cr).rcv.e.inq;
            Q.InqSorted(u, fs).1 || Q.Queued(u.q, u.next)
  {
    hide Good, Trail, HandedOk, CurrentHanded, EpochOk, HeldHanded, RetiredOk, HandedFrom, BacklogOk, Q.InsertSorted;
    hide Q.Queued, Q.Readable, Compare;
    RunKeepsInv(l, turns, cs, cr);
    RunKeepsBacklog(l, turns, cs, cr);
    var r := Run(l, turns, cs, cr);
    var u := r.rcv.e.inq;
    GoodChained(r.rcv, cr);
    assert u.maxlen == cr.maxq by { GoodIn(r.rcv, cr); }
    NotHandedYet(u, r.handed, r.retired);
    AwaitedFitsIff(u, fs);
    if SessionOf(fs) == u.session && Q.Full(u) && !Q.Readable(u) { FullMeansAcked(r, cs); }
  }

  /** In a session that is not past, nothing from the next id on has been handed out. */
  lemma NotHandedYet(u: Q.Queue, handed: set<Handed>, retired: set<nat>)
    requires RetiredOk(u, handed, retired) && u.session !in retired
    ensures !HandedFrom(handed, u.session, u.next)
  {
  }

  lemma GoodIn<K>(f: Focus<K>, cfg: Config)
    requires Good(f, cfg)
    ensures f.e.inq.maxlen == cfg.maxq
  {
  }

  // ---------- Only sequenced traffic ----------

  /** Nothing without a sequence number is filed in the receiving queue. */
  predicate SequencedTraffic<K>(t: Turn<K>) {
    t.Own? && t.m.side == Receiver && t.m.op.Arrive? ==> Sequenced(t.m.op.fs)
  }

  lemma TurnSequenced<K>(l: Link<K>, t: Turn<K>, cs: Config, cr: Config)
    requires Inv(l, cs, cr) && TurnOk(l, t) && AllSequenced(l.rcv.e.inq.q) && SequencedTraffic(t)
    ensures AllSequenced(Take(l, t, cs, cr).rcv.e.inq.q)
  {
    hide Mid, Good, Trail, HandedOk, CurrentHanded, EpochOk, HeldHanded, RetiredOk, Step, Filed, Enabled, HeldAfter;
    hide HandedOut;
    hide Untouched;
    if t.Own? && t.m.side == Receiver {
      StepMid(l.rcv, t.m.op, t.m.now, cr);
      MidSequenced(l.rcv, t.m.op);
    }
  }

  lemma {:induction false} SequencedTrafficQueue<K>(l: Link<K>, turns: seq<Turn<K>>, cs: Config, cr: Config)
    requires Inv(l, cs, cr) && TurnsOk(l, turns, cs, cr) && AllSequenced(l.rcv.e.inq.q)
    requires forall t :: t in turns ==> SequencedTraffic(t)
    ensures AllSequenced(Run(l, turns, cs, cr).rcv.e.inq.q)
    decreases |turns|
  {
    hide Inv, Take, TurnOk, SequencedTraffic, AllSequenced;
    if turns == [] {
    } else {
      TurnKeeps(l, turns[0], cs, cr);
      TurnSequenced(l, turns[0], cs, cr);
      SequencedTrafficQueue(Take(l, turns[0], cs, cr), turns[1..], cs, cr);
    }
  }

  lemma MidSequenced<K>(f: Focus<K>, op: Op)
    requires Enabled(f, op) && AllSequenced(f.e.inq.q) && (op.Arrive? ==> Sequenced(op.fs))
    ensures AllSequenced(Mid(f, op).q)
  {
    hide Q.InqSorted;
    if op.Arrive? {
      Q.InqSortedMembers(f.e.inq, op.fs);
      var v := Q.InqSorted(f.e.inq, op.fs).0;
      forall i | 0 <= i < |v.q| ensures Sequenced(v.q[i]) { assert v.q[i] in v.q; }
    }
  }
}
