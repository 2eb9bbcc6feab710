/** A run in which a receiver comes back to a session and then refuses the frameset it waits for. */
module ComeBack {
  import opened FrameSets
  import opened FsProtocolSpec
  import opened FsProtocolInvariants
  import opened FsProtocolShutdown
  import opened Connection
  import opened Trails
  import opened Delivery
  import opened Backlog
  import Q = FsQueueSpec

  const SMALL := Config(4, 10, 10, 5, 2)

  function Plain(): FrameSet {
    FrameSet(34, None, [])
  }

  function Numbered(reqid: nat): FrameSet {
    FrameSet(34, Some(Id(reqid)), [])
  }

  function Id(reqid: nat): Seqno {
    Seqno(5, reqid, 0)
  }

  function Snds(op: Op): Turn<nat> {
    Own(Move(Sender, op, 0))
  }

  function Rcvs(op: Op): Turn<nat> {
    Own(Move(Receiver, op, 0))
  }

  /** With room for two framesets: 1 and 2 are sent, read and acknowledged, 3 and 4 fill the sender's queue. The
      receiver closes and its timer fires; copies of 1 bring it back to the session from id 1 on; then 3 and 4 fill
      its queue. */
  function Moves(): seq<Turn<nat>> {
    [Snds(Send(Plain())), Snds(Send(Plain())),
     Rcvs(Arrive(Numbered(1))), Rcvs(Arrive(Numbered(2))),
     Rcvs(Read), Rcvs(Read),
     Rcvs(ClientAck(Id(2))), Snds(Arrive(AckOf(Id(2)))),
     Snds(Send(Plain())), Snds(Send(Plain())),
     Rcvs(CloseRequest), Rcvs(ShutTimer),
     Rcvs(Arrive(Numbered(1))), Rcvs(Read),
     Rcvs(Arrive(Numbered(3))), Rcvs(Arrive(Numbered(4)))]
  }

  function Start(): Link<nat> {
    Idle(1, 2, 0, SMALL, SMALL)
  }

  // ---------- The sender's states ----------

  function Sent(n: nat): seq<FrameSet> {
    seq(n, i requires 0 <= i < n => Numbered(i + 1))
  }

  function OnTheWay(n: nat): seq<Packet<nat>> {
    seq(n, i requires 0 <= i < n => Packet(1, Numbered(i + 1)))
  }

  /** With n framesets sent, the first of which have been acknowledged. */
  function Snd(n: nat, acked: nat): Focus<nat>
    requires acked <= n
  {
    var waiting := n > acked;
    Focus(1,
      Elem(Q.Queue(Sent(n)[acked..], n + 1, if n == 0 then 0 else 5, 2, 0, false), Q.Fresh(2, 0),
           None, if n == 0 then None else Some(Id(n)),
           if waiting then 10 else 0, if waiting then 10 else 0,
           if n == 0 then NONE else if acked == 0 then INIT else UP, false, false, false),
      [], if waiting then [1] else [], OnTheWay(n), Sent(n))
  }

  /** With everything before the last frameset sent, only the last one goes out. */
  lemma {:induction false} SendsLast<K>(f: Focus<K>, i: nat)
    requires i < |f.e.outq.q|
    requires forall j :: i <= j < |f.e.outq.q| ==>
               Sequenced(f.e.outq.q[j]) && (Unsent(f.e.lastSent, f.e.outq.q[j]) <==> j == |f.e.outq.q| - 1)
    ensures var x := f.e.outq.q[|f.e.outq.q| - 1];
            SendNew(f, i) == Transmit(f, x).(e := f.e.(lastSent := GetSeqno(x)))
    decreases |f.e.outq.q| - i
  {
    hide Precedes;
    if i == |f.e.outq.q| - 1 {
    } else {
      assert !Unsent(f.e.lastSent, f.e.outq.q[i]);
      SendsLast(f, i + 1);
    }
  }

  /** Xmit when no retransmission is due. */
  lemma XmitNow<K>(f: Focus<K>, cfg: Config)
    requires Good(f, cfg) && |f.e.outq.q| < cfg.window
    ensures Xmit(f, 0, cfg) == SendNew(f, 0)
  {
    hide SendNew, Rexmit, Q.InOk, Q.OutOk, SentOk, ReadyOk, WindowOk, Xmit;
    var f1 := XmitUnfolds(f, 0, cfg);
    SendNewKeeps(f, 0, cfg);
  }

  /** A send into an open window whose queue has been sent. */
  lemma SendOut<K>(f: Focus<K>, fs: FrameSet, cfg: Config)
    requires Good(f, cfg) && Sendable(fs) && !InShutdown(f.e.state) && !Q.Full(f.e.outq)
            && |f.e.outq.q| + 1 < cfg.window
    requires forall i :: 0 <= i < |f.e.outq.q| ==> !Unsent(f.e.lastSent, f.e.outq.q[i])
    ensures var u := f.e.outq;
            var x := Q.Stamp(u, fs, cfg.processSession);
            var idle := u.q == [];
            Send1(f, fs, 0, cfg).0 ==
            f.(unacked := if idle then [f.me] + f.unacked else f.unacked, wire := f.wire + [Packet(f.me, x)],
              sent := f.sent + [x],
               e := f.e.(outq := Q.Enq(u, fs, cfg.processSession).0, lastSent := GetSeqno(x),
                         nextRexmit := if idle then cfg.rexmit else f.e.nextRexmit,
                         ackTimeout := if idle then cfg.ackTimeout else f.e.ackTimeout,
                         state := if f.e.state == NONE then INIT else f.e.state))
  {
    hide Good, Send1, Xmit, SendNew, Append, Unsent, Q.Stamp, Q.Full;
    var f1, f2 := Send1Unfolds(f, fs, 0, cfg);
    StateKeepsGood(f, f1.e.state, cfg);
    var x := Appended(f1, fs, 0, cfg);
    AppendKeeps(f1, fs, 0, cfg);
    XmitNow(f2, cfg);
    var n := |f.e.outq.q|;
    forall j | 0 <= j <= n
      ensures Sequenced(f2.e.outq.q[j]) && (Unsent(f2.e.lastSent, f2.e.outq.q[j]) <==> j == n)
    {
      assert f2.e.outq.q[j] == if j < n then f.e.outq.q[j] else x;
      assert j == n ==> Sequenced(x) by { IsSequenced(f2.e.lastSent, x); }
    }
    SendsLast(f2, 0);
  }

  lemma IsSequenced(last: Option<Seqno>, fs: FrameSet)
    requires Unsent(last, fs)
    ensures Sequenced(fs)
  {
  }

  lemma Appended<K>(f: Focus<K>, fs: FrameSet, now: nat, cfg: Config) returns (x: FrameSet)
    requires Good(f, cfg) && Sendable(fs) && !Q.Full(f.e.outq)
    ensures var u := f.e.outq;
            var idle := u.q == [];
            && x == Q.Stamp(u, fs, cfg.processSession)
            && Append(f, fs, now, cfg).0 ==
               f.(unacked := if idle then [f.me] + f.unacked else f.unacked, sent := f.sent + [x],
                  e := f.e.(outq := Q.Enq(u, fs, cfg.processSession).0,
                            nextRexmit := if idle then now + cfg.rexmit else f.e.nextRexmit,
                            ackTimeout := if idle then now + cfg.ackTimeout else f.e.ackTimeout))
            && Q.Enq(u, fs, cfg.processSession).0.q == u.q + [x]
            && Unsent(f.e.lastSent, x)
            && forall i :: 0 <= i < |u.q| ==> Sequenced(u.q[i])
  {
    hide Q.InOk, SentOk, Chained, UnackedOk, ReadyOk, WindowOk, Precedes, Q.Full;
    x := Q.Stamp(f.e.outq, fs, cfg.processSession);
    Q.EnqOut(f.e.outq, fs, cfg.processSession);
    if f.e.lastSent.Some? { LastSentIsOld(f, fs, cfg); }
  }

  lemma SendNext(n: nat, acked: nat)
    requires acked <= n < acked + 2 && Good(Snd(n, acked), SMALL)
    ensures Step(Snd(n, acked), Send(Plain()), 0, SMALL) == Snd(n + 1, acked)
  {
    hide Good, Send1, Sent, OnTheWay, Unsent;
    OneMore(n, acked);
    NothingUnsent(n, acked);
    SendOut(Snd(n, acked), Plain(), SMALL);
  }

  lemma OneMore(n: nat, acked: nat)
    requires acked <= n
    ensures Sent(n + 1) == Sent(n) + [Numbered(n + 1)] && Sent(n + 1)[acked..] == Sent(n)[acked..] + [Numbered(n + 1)]
    ensures OnTheWay(n + 1) == OnTheWay(n) + [Packet(1, Numbered(n + 1))]
    ensures |Sent(n)| == n && Sent(0) == []
  {
  }

  lemma NothingUnsent(n: nat, acked: nat)
    requires acked <= n
    ensures |Sent(n)| == n && forall i :: 0 <= i < n - acked ==> !Unsent(Some(Id(n)), Sent(n)[acked..][i])
  {
  }

  /** An ACK for everything queued, on a connection that was waiting for its first one. */
  lemma AckedAll<K>(f: Focus<K>, s: Seqno, cfg: Config)
    requires cfg.window > 0 && f.e.outq.q != [] && f.e.state == INIT
    requires Q.AckThrough(f.e.outq, s) == (f.e.outq.(q := []), |f.e.outq.q|)
    ensures ReceiveAck(f, AckOf(s), 0, cfg) ==
            f.(unacked := Remove(f.unacked, f.me),
               e := f.e.(outq := f.e.outq.(q := []), nextRexmit := 0, ackTimeout := 0, state := UP))
  {
    hide Xmit, Q.AckThrough, Remove, Send1, AckMe;
    XmitNothing(f.(unacked := Remove(f.unacked, f.me), e := f.e.(outq := f.e.outq.(q := []), nextRexmit := 0)), 0, cfg);
  }

  /** The ACK for 2 empties the sender's queue. */
  lemma AckEmpties()
    ensures Step(Snd(2, 0), Arrive(AckOf(Id(2))), 0, SMALL) == Snd(2, 2)
  {
    hide ReceiveAck, Q.AckThrough;
    AcksBoth(Snd(2, 0).e.outq);
    AckedAll(Snd(2, 0), Id(2), SMALL);
    assert Sent(2)[2..] == [] && Remove([1], 1) == [];
  }

  lemma AcksBoth(u: Q.Queue)
    requires u == Snd(2, 0).e.outq
    ensures Q.AckThrough(u, Id(2)) == (u.(q := []), 2)
  {
    Q.AckThroughOut(u, Id(2));
  }

  // ---------- The receiver's states ----------

  function Shut(): FrameSet {
    FrameSet(CONNSHUT, Some(Seqno(5, 1, 0)), [])
  }

  /** In its first life or in its second, with a session or without. */
  function Rcv(again: bool, open: bool, next: nat, q: seq<FrameSet>): Focus<nat> {
    var ready := q != [] && Q.Height(q[0]) == next;
    Focus(2,
      Elem(Q.Queue([], 1, if again then 6 else 0, 2, 0, false), Q.Queue(q, next, if open then 5 else 0, 2, 0, ready),
           None, None, 0, if open then 10 else 0, if open then UP else NONE, false, again, again),
      if ready then [2] else [], [],
      if again then [Packet(2, AckOf(Id(2))), Packet(2, Shut())] else [], if again then [Shut()] else [])
  }

  /** With nothing to transmit. */
  lemma XmitNothing<K>(f: Focus<K>, now: nat, cfg: Config)
    requires f.e.outq.q == [] && f.e.nextRexmit == 0 && cfg.window > 0
    ensures Xmit(f, now, cfg) == f
  {
    hide Rexmit;
  }

  /** An accepted arrival at a connection with nothing to transmit. */
  lemma Accepted<K>(f: Focus<K>, fs: FrameSet, now: nat, cfg: Config)
    requires Sequenced(fs) && fs.fstype > CONNNAK && Q.InqSorted(f.e.inq, fs).1
    requires f.e.outq.q == [] && f.e.nextRexmit == 0 && cfg.window > 0
    ensures var u := Q.InqSorted(f.e.inq, fs).0;
            var mark := !u.ready && GetSeqno(fs).value.reqid == u.next;
            Receive(f, fs, now, cfg) ==
            f.(ipend := if mark then f.ipend + [f.me] else f.ipend,
               e := f.e.(inq := u.(ready := u.ready || mark),
                         ackTimeout := if f.e.ackTimeout == 0 then now + cfg.ackTimeout else f.e.ackTimeout,
                         state := if GetSeqno(fs).value.reqid == 1 then NextState(f.e.state, GotStart) else f.e.state))
  {
    hide Xmit, Fsa, NextState, Q.InqSorted;
    var f1 := f.(e := f.e.(inq := Q.InqSorted(f.e.inq, fs).0));
    StartOnlyMoves(f1, Some(fs), now, cfg);
    StartOnlyMoves(f1.(e := f1.e.(ackTimeout := now + cfg.ackTimeout)), Some(fs), now, cfg);
    XmitNothing(MarkReady(File(f, fs, now, cfg), fs), now, cfg);
  }

  lemma SortsLast(u: Q.Queue, fs: FrameSet)
    requires Sequenced(fs) && !Q.Full(u) && GetSeqno(fs).value.session == u.session != 0 && Q.Height(fs) >= u.next
    requires forall i :: 0 <= i < |u.q| ==> Q.GoesAfter(GetSeqno(fs).value, u.q[i])
    ensures Q.InqSorted(u, fs) == (u.(q := u.q + [fs]), true)
  {
    hide Q.InsertSorted, Q.GoesAfter;
    Q.InsertPlace(u.q, fs, |u.q|);
  }

  lemma ArriveFirst(again: bool)
    ensures Step(Rcv(again, false, 1, []), Arrive(Numbered(1)), 0, SMALL) == Rcv(again, true, 1, [Numbered(1)])
  {
    hide Receive, Q.InsertSorted;
    var f := Rcv(again, false, 1, []);
    assert Q.InsertSorted([], Numbered(1)) == [Numbered(1)] by { Q.InsertPlace([], Numbered(1), 0); }
    Accepted(f, Numbered(1), 0, SMALL);
  }

  lemma ArriveNext(again: bool, next: nat, q: seq<FrameSet>, last: nat, reqid: nat)
    requires next <= reqid && 1 < reqid && (q == [] || (next <= last < reqid && q == [Numbered(last)]))
    ensures Step(Rcv(again, true, next, q), Arrive(Numbered(reqid)), 0, SMALL) ==
            Rcv(again, true, next, q + [Numbered(reqid)])
  {
    hide Receive, Q.InqSorted;
    var f := Rcv(again, true, next, q);
    SortsLast(f.e.inq, Numbered(reqid));
    Accepted(f, Numbered(reqid), 0, SMALL);
    assert [] + [2] == [2];
  }

  lemma ReadOne(again: bool, next: nat, q: seq<FrameSet>)
    requires forall i :: 0 <= i < |q| ==> Sequenced(q[i])
    ensures Step(Rcv(again, true, next, [Numbered(next)] + q), Read, 0, SMALL) == Rcv(again, true, next + 1, q)
  {
    hide Xmit;
    assert ([Numbered(next)] + q)[1..] == q;
    assert Remove([2], 2) == [] && [] + [2] == [2];
    var f := Rcv(again, true, next, [Numbered(next)] + q);
    assert f.ipend == [2];
    assert Dequeue(f) == Rcv(again, true, next + 1, q);
    XmitNothing(Rcv(again, true, next + 1, q), 0, SMALL);
  }

  /** After its client has acknowledged 2. */
  function Answered(): Focus<nat> {
    var f := Rcv(false, true, 3, []);
    f.(wire := [Packet(2, AckOf(Id(2)))], e := f.e.(lastAck := Some(Id(2))))
  }

  /** After it has been told to close. */
  function Closing(): Focus<nat> {
    var f := Answered();
    f.(wire := f.wire + [Packet(2, Shut())], sent := [Shut()], unacked := [2],
       e := f.e.(outq := Q.Queue([Shut()], 2, 5, 2, 0, false), lastSent := GetSeqno(Shut()),
                 nextRexmit := 10, ackTimeout := 10, shutTimer := true, state := SHUT1))
  }

  lemma AckTwo()
    ensures Step(Rcv(false, true, 3, []), ClientAck(Id(2)), 0, SMALL) == Answered()
  {
  }

  lemma CloseSends()
    requires Good(Answered(), SMALL)
    ensures Step(Answered(), CloseRequest, 0, SMALL) == Closing()
  {
    hide Good, Send1, Fsa;
    var f := Answered();
    var f1, f2 := FsaUnfolds(f, ReqShutdown, None, 0, SMALL);
    SendOut(f, ShutFrameSet(), SMALL);
    assert [] + [Shut()] == [Shut()] && [2] + [] == [2];
  }

  lemma TimerCloses()
    ensures Step(Closing(), ShutTimer, 0, SMALL) == Rcv(true, false, 1, [])
  {
    hide Send1, Fsa;
    var f1, f2 := FsaUnfolds(Closing(), ShutTimedOut, None, 0, SMALL);
    assert Remove([2], 2) == [];
  }

  // ---------- The run ----------

  lemma {:induction false} RunThen<K>(l: Link<K>, turns: seq<Turn<K>>, t: Turn<K>, cs: Config, cr: Config)
    requires TurnsOk(l, turns, cs, cr) && TurnOk(Run(l, turns, cs, cr), t)
    ensures TurnsOk(l, turns + [t], cs, cr) && Run(l, turns + [t], cs, cr) == Take(Run(l, turns, cs, cr), t, cs, cr)
    decreases |turns|
  {
    hide Take, TurnOk;
    if turns == [] {
      assert turns + [t] == [t] && [t][1..] == [];
    } else {
      assert (turns + [t])[1..] == turns[1..] + [t];
      RunThen(Take(l, turns[0], cs, cr), turns[1..], t, cs, cr);
    }
  }

  /** The first k moves are possible, and lead to these two ends, to what the receiving client holds and to where its
      current epoch started. */
  ghost predicate At(k: nat, snd: Focus<nat>, rcv: Focus<nat>, held: set<Seqno>, start: nat) {
    && k <= |Moves()|
    && TurnsOk(Start(), Moves()[..k], SMALL, SMALL)
    && var l := Run(Start(), Moves()[..k], SMALL, SMALL);
       l.snd == snd && l.rcv == rcv && l.rcvHeld == held && l.start == start
  }

  lemma AtGood(k: nat, snd: Focus<nat>, rcv: Focus<nat>, held: set<Seqno>, start: nat)
    requires At(k, snd, rcv, held, start)
    ensures Good(snd, SMALL) && Good(rcv, SMALL)
  {
    hide Good, Moves, Inv;
    IdleInv<nat>(1, 2, 0, SMALL, SMALL);
    RunKeepsInv(Start(), Moves()[..k], SMALL, SMALL);
    EndsGood(Run(Start(), Moves()[..k], SMALL, SMALL), SMALL, SMALL);
  }

  lemma EndsGood<K>(l: Link<K>, cs: Config, cr: Config)
    requires Inv(l, cs, cr)
    ensures Good(l.snd, cs) && Good(l.rcv, cr)
  {
    hide Good, Trail;
  }

  lemma SenderMoves(k: nat, op: Op, snd: Focus<nat>, rcv: Focus<nat>, held: set<Seqno>, start: nat, g: Focus<nat>)
    requires At(k, snd, rcv, held, start) && k < |Moves()| && Moves()[k] == Snds(op)
    requires Enabled(snd, op) && !op.ClientAck? && FromNetwork(op, rcv) && Step(snd, op, 0, SMALL) == g
    ensures At(k + 1, g, rcv, held, start)
  {
    hide Moves, Step, Enabled, FromNetwork, TurnsOk, Run, Start;
    assert Moves()[..k + 1] == Moves()[..k] + [Moves()[k]];
    RunThen(Start(), Moves()[..k], Moves()[k], SMALL, SMALL);
  }

  lemma ReceiverMoves(k: nat, op: Op, snd: Focus<nat>, rcv: Focus<nat>, held: set<Seqno>, start: nat, g: Focus<nat>)
    requires At(k, snd, rcv, held, start) && k < |Moves()| && Moves()[k] == Rcvs(op)
    requires Enabled(rcv, op) && HonestOp(op, held) && FromNetwork(op, snd) && Step(rcv, op, 0, SMALL) == g
    ensures At(k + 1, snd, g, HeldAfter(rcv, op, held),
               if g.e.inq.session == rcv.e.inq.session then start else g.e.inq.next)
  {
    hide Moves, Step, Enabled, FromNetwork, HeldAfter, HonestOp, TurnsOk, Run, Start;
    assert Moves()[..k + 1] == Moves()[..k] + [Moves()[k]];
    RunThen(Start(), Moves()[..k], Moves()[k], SMALL, SMALL);
  }

  /** Framesets are numbered as they are sent. */
  lemma SendMoves(k: nat, n: nat, acked: nat, rcv: Focus<nat>, held: set<Seqno>, start: nat)
    requires acked <= n < acked + 2
    requires At(k, Snd(n, acked), rcv, held, start) && k < |Moves()| && Moves()[k] == Snds(Send(Plain()))
    ensures At(k + 1, Snd(n + 1, acked), rcv, held, start)
  {
    hide At, Moves, Step, Snd;
    AtGood(k, Snd(n, acked), rcv, held, start);
    SendNext(n, acked);
    SenderMoves(k, Send(Plain()), Snd(n, acked), rcv, held, start, Snd(n + 1, acked));
  }

  lemma OnItsWay(n: nat, acked: nat, reqid: nat)
    requires acked <= n && 1 <= reqid <= n
    ensures FromNetwork(Arrive(Numbered(reqid)), Snd(n, acked))
  {
    assert OnTheWay(n)[reqid - 1] == Packet(1, Numbered(reqid));
  }

  lemma StartsIdle()
    ensures At(0, Snd(0, 0), Rcv(false, false, 1, []), {}, 0)
  {
    hide Moves;
    assert Moves()[..0] == [] && Sent(0) == [] && OnTheWay(0) == [] && Sent(0)[0..] == [];
  }

  /** A copy of 1 opens the session. */
  lemma ArriveFirstMoves(k: nat, again: bool, n: nat, acked: nat, held: set<Seqno>, start: nat)
    requires acked <= n && 1 <= n
    requires At(k, Snd(n, acked), Rcv(again, false, 1, []), held, start)
    requires k < |Moves()| && Moves()[k] == Rcvs(Arrive(Numbered(1)))
    ensures At(k + 1, Snd(n, acked), Rcv(again, true, 1, [Numbered(1)]), held, 1)
  {
    hide At, Moves, Step, Snd, FromNetwork;
    OnItsWay(n, acked, 1);
    ArriveFirst(again);
    ReceiverMoves(k, Arrive(Numbered(1)), Snd(n, acked), Rcv(again, false, 1, []), held, start,
                  Rcv(again, true, 1, [Numbered(1)]));
  }

  lemma ArriveMoves(k: nat, again: bool, next: nat, q: seq<FrameSet>, last: nat, reqid: nat, n: nat, acked: nat,
                    held: set<Seqno>, start: nat)
    requires next <= reqid && 1 < reqid && (q == [] || (next <= last < reqid && q == [Numbered(last)]))
    requires acked <= n && reqid <= n
    requires At(k, Snd(n, acked), Rcv(again, true, next, q), held, start)
    requires k < |Moves()| && Moves()[k] == Rcvs(Arrive(Numbered(reqid)))
    ensures At(k + 1, Snd(n, acked), Rcv(again, true, next, q + [Numbered(reqid)]), held, start)
  {
    hide At, Moves, Step, Snd, FromNetwork;
    OnItsWay(n, acked, reqid);
    ArriveNext(again, next, q, last, reqid);
    ReceiverMoves(k, Arrive(Numbered(reqid)), Snd(n, acked), Rcv(again, true, next, q), held, start,
                  Rcv(again, true, next, q + [Numbered(reqid)]));
  }

  lemma ReadMoves(k: nat, again: bool, next: nat, q: seq<FrameSet>, snd: Focus<nat>, held: set<Seqno>, start: nat)
    requires forall i :: 0 <= i < |q| ==> Sequenced(q[i])
    requires At(k, snd, Rcv(again, true, next, [Numbered(next)] + q), held, start)
    requires k < |Moves()| && Moves()[k] == Rcvs(Read)
    ensures At(k + 1, snd, Rcv(again, true, next + 1, q), held + {Id(next)}, start)
  {
    hide At, Moves, Step;
    ReadOne(again, next, q);
    ReceiverMoves(k, Read, snd, Rcv(again, true, next, [Numbered(next)] + q), held, start,
                  Rcv(again, true, next + 1, q));
  }

  /** The client acknowledges 2, and the ACK reaches the sender. */
  lemma AckMoves(held: set<Seqno>, start: nat)
    requires At(6, Snd(2, 0), Rcv(false, true, 3, []), held, start) && Id(2) in held
    ensures At(8, Snd(2, 2), Answered(), held, start)
  {
    hide At, Step, Snd;
    AckTwo();
    ReceiverMoves(6, ClientAck(Id(2)), Snd(2, 0), Rcv(false, true, 3, []), held, start, Answered());
    AckEmpties();
    SenderMoves(7, Arrive(AckOf(Id(2))), Snd(2, 0), Answered(), held, start, Snd(2, 2));
  }

  lemma CloseMoves(held: set<Seqno>, start: nat)
    requires At(10, Snd(4, 2), Answered(), held, start)
    ensures At(12, Snd(4, 2), Rcv(true, false, 1, []), held, 1)
  {
    hide At, Step, Snd, Good;
    AtGood(10, Snd(4, 2), Answered(), held, start);
    CloseSends();
    ReceiverMoves(10, CloseRequest, Snd(4, 2), Answered(), held, start, Closing());
    TimerCloses();
    ReceiverMoves(11, ShutTimer, Snd(4, 2), Closing(), held, start, Rcv(true, false, 1, []));
  }

  lemma FirstEpoch()
    ensures At(8, Snd(2, 2), Answered(), {Id(1), Id(2)}, 1)
  {
    hide At, Snd, Rcv, Answered, Numbered, Id;
    var n1, n2 := Numbered(1), Numbered(2);
    StartsIdle();
    SendMoves(0, 0, 0, Rcv(false, false, 1, []), {}, 0);
    SendMoves(1, 1, 0, Rcv(false, false, 1, []), {}, 0);
    ArriveFirstMoves(2, false, 2, 0, {}, 0);
    ArriveMoves(3, false, 1, [n1], 1, 2, 2, 0, {}, 1);
    assert [n1] + [n2] == [n1, n2];
    assert Sequenced(n2) by { Numbers(2); }
    ReadMoves(4, false, 1, [n2], Snd(2, 0), {}, 1);
    assert [n2] + [] == [n2];
    ReadMoves(5, false, 2, [], Snd(2, 0), {} + {Id(1)}, 1);
    assert {} + {Id(1)} + {Id(2)} == {Id(1), Id(2)};
    AckMoves({Id(1), Id(2)}, 1);
  }

  lemma Numbers(reqid: nat)
    ensures Sequenced(Numbered(reqid))
  {
  }

  lemma SecondEpoch()
    ensures At(16, Snd(4, 2), Rcv(true, true, 2, [Numbered(3), Numbered(4)]), {Id(1), Id(2)}, 1)
  {
    hide At, Snd, Rcv, Answered, Numbered, Id;
    var held := {Id(1), Id(2)};
    var n1, n3, n4 := Numbered(1), Numbered(3), Numbered(4);
    FirstEpoch();
    SendMoves(8, 2, 2, Answered(), held, 1);
    SendMoves(9, 3, 2, Answered(), held, 1);
    CloseMoves(held, 1);
    ArriveFirstMoves(12, true, 4, 2, held, 1);
    assert [n1] + [] == [n1];
    ReadMoves(13, true, 1, [], Snd(4, 2), held, 1);
    assert held + {Id(1)} == held;
    ArriveMoves(14, true, 2, [], 0, 3, 4, 2, held, 1);
    assert [] + [n3] == [n3];
    ArriveMoves(15, true, 2, [n3], 3, 4, 4, 2, held, 1);
    assert [n3] + [n4] == [n3, n4];
  }

  /** After these moves, in an epoch that started at 1, with equal limits and only sequenced framesets anywhere, the
      frameset that the receiver waits for can still arrive, is not in its queue, and is refused for lack of room. */
  lemma AwaitedCanBeRefused()
    ensures TurnsOk(Start(), Moves(), SMALL, SMALL) && forall m :: m in Moves() ==> SequencedTraffic(m)
    ensures var l := Run(Start(), Moves(), SMALL, SMALL);
            var u := l.rcv.e.inq;
            && u.session == 5 && u.next == 2 && l.start == 1 && AllSequenced(u.q) && Q.Full(u)
            && MoveOk(l, Move(Receiver, Arrive(Numbered(2)), 0))
            && Numbered(2) in l.snd.sent && Numbered(2) !in l.snd.e.outq.q
            && !Q.Queued(u.q, 2) && !Q.InqSorted(u, Numbered(2)).1
  {
    hide Moves, Step, TurnsOk, Run;
    Sixteen();
    SecondEpoch();
    OnItsWay(4, 2, 2);
    assert Sent(4)[1] == Numbered(2);
  }

  lemma Sixteen()
    ensures |Moves()| == 16 && Moves()[..16] == Moves()
    ensures forall m :: m in Moves() ==> SequencedTraffic(m)
  {
  }
}
