/** ACKs: when one is sent, what it stands for, and that it releases what the sender holds. */
module Acks {
  import opened FrameSets
  import opened FsProtocolSpec
  import opened FsProtocolInvariants
  import opened FsProtocolShutdown
  import opened Connection
  import opened Trails
  import opened Delivery
  import Neighbours
  import Q = FsQueueSpec

  // ---------- Sending ACKs ----------

  /** An ACK of this session can be sent: the input queue is in it, or in none. */
  predicate Ackable<K>(f: Focus<K>, s: Seqno) {
    f.e.inq.session == 0 || s.session == f.e.inq.session
  }

  /** Acknowledging puts exactly one ACK on the wire, and remembers the later of this and the last one; for another
      session it does nothing. */
  lemma AckSent<K>(f: Focus<K>, s: Seqno)
    ensures var g := AckSeqno(f, s);
            if !Ackable(f, s) then g == f
            else
              && g == f.(e := f.e.(lastAck := g.e.lastAck), wire := f.wire + [Packet(f.me, AckOf(s))])
              && g.e.lastAck.Some? && !Precedes(g.e.lastAck.value, s)
              && (f.e.lastAck.Some? ==> !Precedes(g.e.lastAck.value, f.e.lastAck.value))
              && (g.e.lastAck == Some(s) || g.e.lastAck == f.e.lastAck)
  {
    if f.e.lastAck.Some? { CompareIsOrder(s, f.e.lastAck.value, s); }
  }

  lemma SendsKeeps<K>(f: Focus<K>, g: Focus<K>, p: Packet<K>)
    requires Sends(f, g) && p in f.wire
    ensures p in g.wire
  {
  }

  lemma XmitSends<K>(f: Focus<K>, now: nat, cfg: Config)
    requires Good(f, cfg)
    ensures Sends(f, Xmit(f, now, cfg))
  {
    hide Good, Xmit, Sends;
    XmitEffect(f, now, cfg);
  }

  /** The peer's CONNSHUT is acknowledged in every state but NONE. */
  lemma ShutdownIsAcked<K>(f: Focus<K>, fs: FrameSet, now: nat, cfg: Config)
    requires Good(f, cfg) && f.e.state != NONE && Sequenced(fs) && Ackable(f, GetSeqno(fs).value)
    ensures Packet(f.me, AckOf(GetSeqno(fs).value)) in Fsa(f, RcvShutdown, Some(fs), now, cfg).wire
  {
    hide Good, Fsa, Send1, AckSeqno, Settle, Sends, NextState, Neighbours.OrderKept, Neighbours.OthersStay;
    var s := GetSeqno(fs).value;
    var f1, f2 := FsaUnfolds(f, RcvShutdown, Some(fs), now, cfg);
    AckSent(f, s);
    AckSeqnoKeeps(f, s, cfg);
    Neighbours.Send1Apart(f1, ShutFrameSet(), now, cfg);
    if f2 != f1 { SendsKeeps(f1, f2, Packet(f.me, AckOf(s))); }
    SettleWire(f2, ActionsFor(f.e.state, RcvShutdown), NextState(f.e.state, RcvShutdown));
  }

  lemma SettleWire<K>(f: Focus<K>, act: Actions, next: State)
    ensures Settle(f, act, next).wire == f.wire
  {
    hide Remove;
  }

  /** A copy that is refused, at or below the last ACK in its session, makes that ACK go out again. */
  lemma DuplicateIsAcked<K>(f: Focus<K>, fs: FrameSet, now: nat, cfg: Config)
    requires Good(f, cfg) && Arrivable(fs) && Sequenced(fs) && fs.fstype != ACK && fs.fstype != CONNNAK
    requires !Q.InqSorted(f.e.inq, fs).1 && SessionOf(fs) >= f.e.inq.session
    requires f.e.lastAck.Some? && f.e.lastAck.value.session == SessionOf(fs)
    requires !Precedes(f.e.lastAck.value, GetSeqno(fs).value)
    ensures Packet(f.me, AckOf(f.e.lastAck.value)) in Receive(f, fs, now, cfg).wire
  {
    hide Good, AlmostGood, MarkDue, Xmit, Fsa, AckSeqno, Sends;
    var f1 := f.(e := f.e.(inq := Q.InqSorted(f.e.inq, fs).0));
    var s := GetSeqno(fs).value;
    var p := Packet(f.me, AckOf(f.e.lastAck.value));
    assert f1.e.inq.session == s.session by { EnteredSession(f.e.inq, fs); }
    CompareIsOrder(s, f.e.lastAck.value, s);
    AckSent(f1, f.e.lastAck.value);
    assert p in File(f, fs, now, cfg).wire by { RefusedFile(f, fs, now, cfg); }
    FileKeeps(f, fs, now, cfg);
    MarkReadyKeeps(File(f, fs, now, cfg), fs, cfg);
    var g := MarkReady(File(f, fs, now, cfg), fs);
    XmitSends(g, now, cfg);
    SendsKeeps(g, Xmit(g, now, cfg), p);
  }

  lemma EnteredSession(u: Q.Queue, fs: FrameSet)
    requires Sequenced(fs) && SessionOf(fs) >= u.session
    ensures Q.InqSorted(u, fs).0.session == SessionOf(fs)
  {
    hide Q.InsertSorted;
  }

  lemma RefusedFile<K>(f: Focus<K>, fs: FrameSet, now: nat, cfg: Config)
    requires Sequenced(fs) && !Q.InqSorted(f.e.inq, fs).1
    requires f.e.lastAck.Some? && f.e.lastAck.value.session == SessionOf(fs)
    requires Compare(GetSeqno(fs).value, f.e.lastAck.value) <= 0
    ensures File(f, fs, now, cfg) ==
            AckSeqno(f.(e := f.e.(inq := Q.InqSorted(f.e.inq, fs).0)), f.e.lastAck.value)
  {
    hide Q.InqSorted, AckSeqno, Fsa, Compare;
  }

  // ---------- What an ACK releases ----------

  /** An ACK in the session of an output queue, for an id that has been given out, removes everything up to that id. */
  lemma AckReleases(u: Q.Queue, s: Seqno, x: FrameSet)
    requires Q.OutOk(u) && s.session == u.session && s.reqid < u.next
    requires x in u.q && Q.Height(x) <= s.reqid
    ensures x !in Q.AckThrough(u, s).0.q
  {
    hide Q.AckThrough;
    Q.AckThroughOut(u, s);
    var (v, count) := Q.AckThrough(u, s);
    forall j | 0 <= j < |v.q| ensures v.q[j] != x {
      assert v.q[j] == u.q[count + j];
    }
  }

  /** Nothing accepted in the session of an output queue reaches its next id. */
  lemma SentBelowNext<K>(f: Focus<K>, x: FrameSet, cfg: Config)
    requires Good(f, cfg) && x in f.sent && Sequenced(x) && SessionOf(x) == f.e.outq.session
    ensures Q.Height(x) < f.e.outq.next
  {
    hide Q.InOk, Q.OutOk, UnackedOk, ReadyOk, WindowOk;
    var n := |f.sent| - 1;
    var i :| 0 <= i < |f.sent| && f.sent[i] == x;
    if i < n { NoIdReused(f.sent, i, n); }
  }

  /** What the client has been given and acknowledges in the current session goes out as an ACK, and that ACK releases
      it, and all before it, at the sender. */
  lemma ClientAckReleases<K>(l: Link<K>, s: Seqno, x: FrameSet, now: nat, cs: Config, cr: Config)
    requires Inv(l, cs, cr) && s in l.rcvHeld && Ackable(l.rcv, s)
    requires s.session == l.snd.e.outq.session && x in l.snd.e.outq.q && Q.Height(x) <= s.reqid
    ensures MoveOk(l, Move(Receiver, ClientAck(s), now))
    ensures Packet(l.rcv.me, AckOf(s)) in Apply(l, Move(Receiver, ClientAck(s), now), cs, cr).rcv.wire
    ensures x !in Q.AckThrough(l.snd.e.outq, s).0.q
  {
    hide Good, Trail, HandedOk, RetiredOk, CurrentHanded, EpochOk, QueuedIsSentByPeer, PastOk, AckSeqno;
    AckSent(l.rcv, s);
    HeldIsKnown(l, s, cs, cr);
    assert Q.OutOk(l.snd.e.outq) by { GoodChained(l.snd, cs); }
    AckReleases(l.snd.e.outq, s, x);
  }

  /** What the receiving client holds in the sender's current session lies below the sender's next id. */
  lemma HeldIsKnown<K>(l: Link<K>, s: Seqno, cs: Config, cr: Config)
    requires Inv(l, cs, cr) && s in l.rcvHeld && s.session == l.snd.e.outq.session
    ensures s.reqid < l.snd.e.outq.next
  {
    hide Good, Trail, RetiredOk, CurrentHanded, EpochOk, QueuedIsSentByPeer, PastOk;
    var d :| d in l.handed && GetSeqno(d.fs) == Some(s);
    SentBelowNext(l.snd, d.fs, cs);
  }

  /** A copy of something that the sender still holds, refused at or below the last ACK, brings that ACK out again, and
      it releases the frameset at the sender: a lost ACK is made good. */
  lemma DuplicateReleases<K>(l: Link<K>, fs: FrameSet, now: nat, cs: Config, cr: Config)
    requires Inv(l, cs, cr) && MoveOk(l, Move(Receiver, Arrive(fs), now)) && fs in l.snd.e.outq.q && Sequenced(fs)
    requires !Q.InqSorted(l.rcv.e.inq, fs).1 && SessionOf(fs) >= l.rcv.e.inq.session
    requires l.rcv.e.lastAck.Some? && l.rcv.e.lastAck.value.session == SessionOf(fs)
    requires !Precedes(l.rcv.e.lastAck.value, GetSeqno(fs).value)
    ensures var ack := l.rcv.e.lastAck.value;
            && Packet(l.rcv.me, AckOf(ack)) in Apply(l, Move(Receiver, Arrive(fs), now), cs, cr).rcv.wire
            && fs !in Q.AckThrough(l.snd.e.outq, ack).0.q
  {
    hide Good, HandedOk, RetiredOk, CurrentHanded, EpochOk, QueuedIsSentByPeer, PastOk, Receive;
    hide WireOk, PrefixOnWire, RestOffWire, Q.InqSorted, HeldHanded;
    var u := l.snd.e.outq;
    var ack := l.rcv.e.lastAck.value;
    var i :| 0 <= i < |u.q| && u.q[i] == fs;
    QueuedIsSent(l.snd, cs, i);
    DuplicateIsAcked(l.rcv, fs, now, cr);
    assert Q.OutOk(u) by { GoodChained(l.snd, cs); }
    assert SessionOf(fs) == u.session;
    HeldIsKnown(l, ack, cs, cr);
    AckReleases(u, ack, fs);
  }

  // ---------- The last ACK of a queue ----------

  /** An ACK for the last frameset of the queue completes the output, and the automaton is told. An ACK that finds the
      queue empty tells it nothing. */
  lemma AckCompletes<K>(f: Focus<K>, s: Seqno, now: nat, cfg: Config)
    requires Good(f, cfg)
    requires f.e.outq.q == [] || (s.session == f.e.outq.session && s.reqid + 1 == f.e.outq.next)
    ensures ReceiveAck(f, AckOf(s), now, cfg).e.state ==
            if f.e.outq.q != [] then NextState(f.e.state, OutAllDone) else f.e.state
  {
    hide Good, Xmit, Fsa, Q.AckThrough, Remove, Settle, Send1, AckMe, NextState;
    var g := Acked(f, s, now, cfg);
    AckedKeeps(f, s, now, cfg);
    LastAckClears(f, s, cfg);
    XmitEmpty(g, now, cfg);
    var h0 := g.(e := g.e.(ackTimeout := 0));
    FsaState(h0, OutAllDone, Some(AckOf(s)), now, cfg);
  }

  lemma LastAckClears<K>(f: Focus<K>, s: Seqno, cfg: Config)
    requires Good(f, cfg)
    requires f.e.outq.q == [] || (s.session == f.e.outq.session && s.reqid + 1 == f.e.outq.next)
    ensures var (v, count) := Q.AckThrough(f.e.outq, s); v.q == [] && (count > 0 <==> f.e.outq.q != [])
  {
    hide Q.AckThrough, SentOk, Q.InOk, UnackedOk, ReadyOk, WindowOk;
    Q.AckThroughOut(f.e.outq, s);
  }

  lemma XmitEmpty<K>(f: Focus<K>, now: nat, cfg: Config)
    requires Good(f, cfg) && f.e.outq.q == []
    ensures Xmit(f, now, cfg) == f
  {
    hide Q.InOk, Q.OutOk, SentOk, ReadyOk, WindowOk, Rexmit;
  }

  lemma FsaState<K>(f: Focus<K>, input: Input, fs: Option<FrameSet>, now: nat, cfg: Config)
    ensures Fsa(f, input, fs, now, cfg).e.state == NextState(f.e.state, input)
  {
    hide Send1, AckMe, NextState, ActionsFor, Reinit, Fsa;
    var f1, f2 := FsaUnfolds(f, input, fs, now, cfg);
  }

  /** An arrival on a connection with no output opens it exactly if it is accepted and is the first of its session. */
  lemma ArrivalOpens<K>(f: Focus<K>, fs: FrameSet, now: nat, cfg: Config)
    requires Good(f, cfg) && Arrivable(fs) && fs.fstype != ACK && fs.fstype != CONNNAK && f.e.outq.q == []
    ensures Receive(f, fs, now, cfg).e.state ==
            if Q.InqSorted(f.e.inq, fs).1 && Sequenced(fs) && GetSeqno(fs).value.reqid == 1
            then NextState(f.e.state, GotStart) else f.e.state
  {
    hide Good, AlmostGood, MarkDue, Xmit, NextState;
    FileKeeps(f, fs, now, cfg);
    FileShape(f, fs, now, cfg);
    MarkReadyKeeps(File(f, fs, now, cfg), fs, cfg);
    XmitEmpty(MarkReady(File(f, fs, now, cfg), fs), now, cfg);
    FiledState(f, fs, now, cfg);
  }

  lemma FiledState<K>(f: Focus<K>, fs: FrameSet, now: nat, cfg: Config)
    ensures File(f, fs, now, cfg).e.state ==
            if Q.InqSorted(f.e.inq, fs).1 && Sequenced(fs) && GetSeqno(fs).value.reqid == 1
            then NextState(f.e.state, GotStart) else f.e.state
  {
    hide Q.InqSorted, Fsa, Compare, NextState, AckSeqno;
    var f1 := f.(e := f.e.(inq := Q.InqSorted(f.e.inq, fs).0));
    StartOnlyMoves(f1, Some(fs), now, cfg);
    StartOnlyMoves(f1.(e := f1.e.(ackTimeout := now + cfg.ackTimeout)), Some(fs), now, cfg);
    if f1.e.lastAck.Some? { AckSeqnoEffect(f1, f1.e.lastAck.value); }
  }
}
