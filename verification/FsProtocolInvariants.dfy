/** What every per-connection protocol operation keeps. */
module FsProtocolInvariants {
  import opened FrameSets
  import opened FsProtocolSpec
  import Q = FsQueueSpec

  // ---------- The invariants ----------

  /** A connection is in the list exactly once if the flag is set, and not at all otherwise. */
  predicate Listed<K(==)>(list: seq<K>, k: K, flag: bool) {
    multiset(list)[k] == if flag then 1 else 0
  }

  /** In the unacknowledged list exactly once iff output is queued iff a retransmission is scheduled. */
  predicate UnackedOk<K(==)>(f: Focus<K>) {
    && Listed(f.unacked, f.me, f.e.outq.q != [])
    && (f.e.nextRexmit != 0 <==> f.e.outq.q != [])
  }

  /** In the readable list exactly once iff marked ready; a readable head is always marked. */
  predicate ReadyOk<K(==)>(f: Focus<K>) {
    && Listed(f.ipend, f.me, f.e.inq.ready)
    && (Q.Readable(f.e.inq) ==> f.e.inq.ready)
  }

  /** At most window - 1 unacknowledged framesets have been first-transmitted, and they are the oldest ones. */
  predicate WindowOk(e: Elem, cfg: Config)
    requires Q.OutOk(e.outq)
  {
    e.lastSent.Some? ==>
      && e.outq.session != 0
      && e.lastSent.value.session == e.outq.session
      && e.lastSent.value.reqid < e.outq.next
      && e.lastSent.value.reqid + 2 <= Q.FirstId(e.outq) + cfg.window
  }

  /** Output ids run 1, 2, 3, ... within a session and start again at 1 in a higher one. */
  ghost predicate Chained(sent: seq<FrameSet>) {
    && (forall i :: 0 <= i < |sent| ==> Sequenced(sent[i]))
    && (sent != [] ==> GetSeqno(sent[0]).value.reqid == 1)
    && (forall i, j :: 0 <= i && j == i + 1 && j < |sent| ==> Follows(sent[i], sent[j]))
  }

  predicate Follows(a: FrameSet, b: FrameSet)
    requires Sequenced(a) && Sequenced(b)
  {
    var s, t := GetSeqno(a).value, GetSeqno(b).value;
    (t.session == s.session && t.reqid == s.reqid + 1) || (t.session > s.session && t.reqid == 1)
  }

  /** The output queue is the unacknowledged end of everything it has accepted. */
  ghost predicate SentOk(u: Q.Queue, sent: seq<FrameSet>) {
    && Chained(sent)
    && |u.q| <= |sent|
    && (forall i :: 0 <= i < |u.q| ==> u.q[i] == sent[|sent| - |u.q| + i])
    && (u.session == 0 ==> sent == [])
    && (sent == [] ==> u.next == 1)
    && (sent != [] ==>
          var last := GetSeqno(sent[|sent| - 1]).value;
          if u.next > 1 then last.session == u.session && last.reqid + 1 == u.next else last.session < u.session)
  }

  ghost predicate Good<K>(f: Focus<K>, cfg: Config) {
    && Sane(cfg)
    && f.e.outq.maxlen == cfg.maxq && f.e.inq.maxlen == cfg.maxq
    && Q.OutOk(f.e.outq)
    && Q.InOk(f.e.inq)
    && UnackedOk(f)
    && ReadyOk(f)
    && WindowOk(f.e, cfg)
    && SentOk(f.e.outq, f.sent)
  }

  /** Framesets that may be given to Send1: of a type that is sent reliably, without a sequence number yet. */
  predicate Sendable(fs: FrameSet) {
    fs.fstype >= MIN_SEQFRAMESET && fs.reqFrame == None
  }

  /** Framesets that may arrive: a process never has session id 0. */
  predicate Arrivable(fs: FrameSet) {
    Sequenced(fs) ==> GetSeqno(fs).value.session != 0
  }

  // ---------- List facts ----------

  lemma {:induction false} RemoveOne<K>(list: seq<K>, k: K)
    ensures multiset(Remove(list, k)) == multiset(list) - multiset{k}
  {
    if list == [] {
    } else {
      assert list == [list[0]] + list[1..];
      if list[0] != k { RemoveOne(list[1..], k); }
    }
  }

  // ---------- Single steps ----------

  lemma FreshGood<K>(me: K, ipend: seq<K>, unacked: seq<K>, wire: seq<Packet<K>>, qid: nat, cfg: Config)
    requires Sane(cfg) && me !in ipend && me !in unacked
    ensures Good(Focus(me, FreshElem(cfg.maxq, qid), ipend, unacked, wire, []), cfg)
  {
  }

  /** Packets have been added, to this connection's far end only. */
  ghost predicate Sends<K>(f: Focus<K>, g: Focus<K>) {
    f.wire <= g.wire && forall i :: |f.wire| <= i < |g.wire| ==> g.wire[i].dest == f.me
  }

  /** The parts of a connection that Good looks at. */
  predicate SameQueues<K(==)>(f: Focus<K>, g: Focus<K>) {
    && f.me == g.me && f.ipend == g.ipend && f.unacked == g.unacked && f.sent == g.sent
    && f.e.outq == g.e.outq && f.e.inq == g.e.inq
    && (f.e.nextRexmit == 0 <==> g.e.nextRexmit == 0)
  }

  lemma GoodFrame<K>(f: Focus<K>, g: Focus<K>, cfg: Config)
    requires Good(f, cfg) && SameQueues(f, g) && WindowOk(g.e, cfg)
    ensures Good(g, cfg)
  {
    hide Chained, SentOk, Q.OutOk, Q.InOk, WindowOk, Q.Readable, Q.FirstId;
  }

  lemma AckSeqnoKeeps<K>(f: Focus<K>, s: Seqno, cfg: Config)
    requires Good(f, cfg)
    ensures Good(AckSeqno(f, s), cfg)
    ensures SameQueues(f, AckSeqno(f, s))
  {
    hide Chained, SentOk, Q.OutOk, Q.InOk, Compare, Precedes, Q.Readable;
    GoodFrame(f, AckSeqno(f, s), cfg);
  }

  lemma AckMeKeeps<K>(f: Focus<K>, fs: Option<FrameSet>, cfg: Config)
    requires Good(f, cfg)
    ensures Good(AckMe(f, fs), cfg)
  {
    hide Good, AckSeqno;
    if fs.Some? && Sequenced(fs.value) { AckSeqnoKeeps(f, GetSeqno(fs.value).value, cfg); }
  }

  /** An output queue starts again: empty, and in the next session unless it never had one. */
  lemma NextSessionKeeps(u: Q.Queue, v: Q.Queue, sent: seq<FrameSet>)
    requires Q.OutOk(u) && SentOk(u, sent)
    requires v == u.(q := [], next := 1, session := if u.session == 0 then 0 else u.session + 1, ready := v.ready)
    ensures Q.OutOk(v) && SentOk(v, sent)
  {
    hide Chained;
  }

  lemma ReinitListed<K>(f: Focus<K>)
    requires UnackedOk(f) && ReadyOk(f)
    ensures UnackedOk(Reinit(f)) && Listed(Reinit(f).ipend, f.me, Reinit(f).e.inq.ready)
  {
    hide Q.Readable;
    RemoveOne(f.unacked, f.me);
    RemoveOne(f.ipend, f.me);
  }

  lemma ReinitKeeps<K>(f: Focus<K>, cfg: Config)
    requires Good(f, cfg)
    ensures Good(Reinit(f), cfg)
    ensures var g := Reinit(f).e;
            && g.outq.q == [] && g.inq.q == [] && g.inq.session == 0 && g.state == NONE
            && (f.e.outq.session != 0 ==> g.outq.session > f.e.outq.session)
    ensures var g := Reinit(f).e;
            g == FreshElem(cfg.maxq, 0).(
                   outq := Q.Fresh(cfg.maxq, f.e.outq.qid).(session := g.outq.session, ready := g.outq.ready),
                   inq := Q.Fresh(cfg.maxq, f.e.inq.qid).(ready := g.inq.ready))
  {
    hide Chained, SentOk, Q.OutOk, Listed, Remove, Q.FirstId, Compare;
    NextSessionKeeps(f.e.outq, Reinit(f).e.outq, f.sent);
    ReinitListed(f);
  }

  lemma SettleKeeps<K>(f: Focus<K>, act: Actions, next: State, cfg: Config)
    requires Good(f, cfg)
    ensures Good(Settle(f, act, next), cfg)
  {
    hide Chained, SentOk, Q.OutOk, Q.InOk, Q.Readable, Listed, Reinit, WindowOk;
    var f1 := f.(e := f.e.(shutTimer := if act.noTime then false else (f.e.shutTimer || act.timer)));
    assert WindowOk(f1.e, cfg) by { WindowFrame(f.e, f1.e, cfg); }
    GoodFrame(f, f1, cfg);
    ReinitKeeps(f1, cfg);
    var f2 := if act.close then Reinit(f1) else f1;
    WindowFrame(f2.e, Settle(f, act, next).e, cfg);
    GoodFrame(f2, Settle(f, act, next), cfg);
  }

  lemma EnqSent(u: Q.Queue, sent: seq<FrameSet>, fs: FrameSet, processSession: nat)
    requires Q.OutOk(u) && SentOk(u, sent) && Sendable(fs) && !Q.Full(u) && processSession > 0
    ensures SentOk(Q.Enq(u, fs, processSession).0, sent + [Q.Stamp(u, fs, processSession)])
  {
    hide Q.OutOk, Compare, Q.Full;
    Q.EnqOut(u, fs, processSession);
    var x := Q.Stamp(u, fs, processSession);
    ChainGrows(sent, x);
  }

  lemma ChainGrows(sent: seq<FrameSet>, x: FrameSet)
    requires Chained(sent) && Sequenced(x)
    requires if sent == [] then GetSeqno(x).value.reqid == 1 else Follows(sent[|sent| - 1], x)
    ensures Chained(sent + [x])
  {
    hide Follows, GetSeqno;
  }

  lemma AppendKeeps<K>(f: Focus<K>, fs: FrameSet, now: nat, cfg: Config)
    requires Good(f, cfg) && Sendable(fs)
    ensures Good(Append(f, fs, now, cfg).0, cfg)
  {
    hide Chained, SentOk, Q.OutOk, Q.InOk, Compare, Q.Enq, Q.Stamp, Listed, Q.Readable, Q.Full, UnackedOk, WindowOk;
    hide Q.FirstId;
    AppendQueue(f, fs, now, cfg);
    AppendListed(f, fs, now, cfg);
  }

  lemma AppendQueue<K>(f: Focus<K>, fs: FrameSet, now: nat, cfg: Config)
    requires Good(f, cfg) && Sendable(fs)
    ensures var g := Append(f, fs, now, cfg).0;
            Q.OutOk(g.e.outq) && g.e.outq.maxlen == cfg.maxq && SentOk(g.e.outq, g.sent) && WindowOk(g.e, cfg)
  {
    hide Chained, SentOk, Q.OutOk, Q.InOk, Compare, UnackedOk, ReadyOk;
    Q.EnqOut(f.e.outq, fs, cfg.processSession);
    if !Q.Full(f.e.outq) { EnqSent(f.e.outq, f.sent, fs, cfg.processSession); }
  }

  lemma AppendListed<K>(f: Focus<K>, fs: FrameSet, now: nat, cfg: Config)
    requires Good(f, cfg) && Sendable(fs)
    ensures UnackedOk(Append(f, fs, now, cfg).0)
  {
    hide Chained, SentOk, Q.OutOk, Q.InOk, Compare, ReadyOk, WindowOk;
    Q.EnqOut(f.e.outq, fs, cfg.processSession);
    assert multiset([f.me] + f.unacked) == multiset{f.me} + multiset(f.unacked);
  }

  lemma {:induction false} SendNewKeeps<K>(f: Focus<K>, i: nat, cfg: Config)
    requires Good(f, cfg) && i <= |f.e.outq.q| < cfg.window
    ensures Good(SendNew(f, i), cfg)
    ensures SendNew(f, i).e == f.e.(lastSent := SendNew(f, i).e.lastSent)
    decreases |f.e.outq.q| - i
  {
    hide Chained, SentOk, Q.InOk, Q.Readable, Compare, Precedes;
    if i == |f.e.outq.q| {
    } else {
      var fs := f.e.outq.q[i];
      if f.e.lastSent.Some? && !Precedes(f.e.lastSent.value, GetSeqno(fs).value) {
        SendNewKeeps(f, i + 1, cfg);
      } else {
        var g := Transmit(f, fs);
        var h := g.(e := g.e.(lastSent := GetSeqno(fs)));
        GoodFrame(f, h, cfg);
        SendNewKeeps(h, i + 1, cfg);
      }
    }
  }

  // ---------- The mutually recursive core ----------

  lemma {:induction false} FsaKeeps<K>(f: Focus<K>, input: Input, fs: Option<FrameSet>, now: nat, cfg: Config)
    requires Good(f, cfg)
    ensures Good(Fsa(f, input, fs, now, cfg), cfg)
    decreases if MaySendShut(input) then 1 else 0, 0, 0
  {
    OnlyShutdownInputsSendShut(f.e.state, input);
    var act := ActionsFor(f.e.state, input);
    var f1 := if act.ackMe then AckMe(f, fs) else f;
    AckMeKeeps(f, fs, cfg);
    if act.sndShut { Send1Keeps(f1, ShutFrameSet(), now, cfg); }
    var f2 := if act.sndShut then Send1(f1, ShutFrameSet(), now, cfg).0 else f1;
    SettleKeeps(f2, act, NextState(f.e.state, input), cfg);
  }

  lemma {:induction false} Send1Keeps<K>(f: Focus<K>, fs: FrameSet, now: nat, cfg: Config)
    requires Good(f, cfg) && Sendable(fs)
    ensures Good(Send1(f, fs, now, cfg).0, cfg)
    decreases 0, 2
  {
    if !InShutdown(f.e.state) {
      FsaKeeps(f, ReqSend, None, now, cfg);
      var f1 := Fsa(f, ReqSend, None, now, cfg);
      AppendKeeps(f1, fs, now, cfg);
      XmitKeeps(Append(f1, fs, now, cfg).0, now, cfg);
    }
  }

  lemma {:induction false} XmitKeeps<K>(f: Focus<K>, now: nat, cfg: Config)
    requires Good(f, cfg)
    ensures Good(Xmit(f, now, cfg), cfg)
    decreases 0, 1
  {
    var f1 := if |f.e.outq.q| < cfg.window then SendNew(f, 0) else f;
    if |f.e.outq.q| < cfg.window { SendNewKeeps(f, 0, cfg); }
    if f1.e.nextRexmit != 0 && now > f1.e.nextRexmit {
      RexmitKeeps(f1, now, cfg);
    }
  }

  lemma {:induction false} RexmitKeeps<K>(f: Focus<K>, now: nat, cfg: Config)
    requires Good(f, cfg) && f.e.nextRexmit != 0
    ensures Good(Rexmit(f, now, cfg), cfg)
    ensures f.e.outq.q == [] ==> Rexmit(f, now, cfg).e.outq.q == []
    decreases 0, 0, 1
  {
    hide Chained, Q.OutOk, Q.InOk, Compare, Fsa;
    var g := Transmit(f.(e := f.e.(nextRexmit := now + cfg.rexmit)), f.e.outq.q[0]);
    assert Good(g, cfg);
    FsaKeeps(g, AckTimedOut, None, now, cfg);
  }

  // ---------- Receiving and reading ----------

  lemma AckedSent(u: Q.Queue, sent: seq<FrameSet>, s: Seqno)
    requires Q.OutOk(u) && SentOk(u, sent)
    ensures SentOk(Q.AckThrough(u, s).0, sent)
  {
    hide Chained, Q.OutOk, Q.AckThrough, Q.FirstId, Compare;
    Q.AckThroughOut(u, s);
  }

  /** Removing what an ACK covers, before anything is transmitted. */
  function Acked<K(==)>(f: Focus<K>, s: Seqno, now: nat, cfg: Config): Focus<K> {
    var (outq, count) := Q.AckThrough(f.e.outq, s);
    var f1 := f.(e := f.e.(outq := outq));
    if count < 0 then f1
    else if outq.q == [] then f1.(unacked := Remove(f1.unacked, f1.me), e := f1.e.(nextRexmit := 0))
    else f1.(e := f1.e.(ackTimeout := now + cfg.ackTimeout))
  }

  lemma AckedQueue<K>(f: Focus<K>, s: Seqno, now: nat, cfg: Config)
    requires Good(f, cfg)
    ensures var g := Acked(f, s, now, cfg);
            Q.OutOk(g.e.outq) && SentOk(g.e.outq, g.sent) && WindowOk(g.e, cfg)
  {
    hide SentOk, Q.OutOk, Q.InOk, UnackedOk, ReadyOk, Q.AckThrough, WindowOk;
    AckedSent(f.e.outq, f.sent, s);
    AckedWindow(f.e, Acked(f, s, now, cfg).e, s, cfg);
  }

  lemma AckedListed<K>(f: Focus<K>, s: Seqno, now: nat, cfg: Config)
    requires Q.OutOk(f.e.outq) && UnackedOk(f)
    ensures UnackedOk(Acked(f, s, now, cfg))
    ensures Acked(f, s, now, cfg).e.outq.maxlen == f.e.outq.maxlen
  {
    hide Q.OutOk, Q.AckThrough, Q.FirstId, Remove;
    Q.AckThroughOut(f.e.outq, s);
    RemoveOne(f.unacked, f.me);
  }

  lemma AckedKeeps<K>(f: Focus<K>, s: Seqno, now: nat, cfg: Config)
    requires Good(f, cfg)
    ensures Good(Acked(f, s, now, cfg), cfg)
  {
    hide SentOk, Q.OutOk, Q.InOk, UnackedOk, Q.AckThrough, WindowOk, Q.Readable;
    AckedQueue(f, s, now, cfg);
    AckedListed(f, s, now, cfg);
  }

  lemma AckedWindow(e: Elem, d: Elem, s: Seqno, cfg: Config)
    requires Q.OutOk(e.outq) && WindowOk(e, cfg)
    requires d.outq == Q.AckThrough(e.outq, s).0 && d.lastSent == e.lastSent
    ensures Q.OutOk(d.outq) && WindowOk(d, cfg)
  {
    hide Q.OutOk, Q.AckThrough;
    Q.AckThroughOut(e.outq, s);
  }

  lemma ReceiveAckKeeps<K>(f: Focus<K>, fs: FrameSet, now: nat, cfg: Config)
    requires Good(f, cfg)
    ensures Good(ReceiveAck(f, fs, now, cfg), cfg)
  {
    hide Good, Xmit, Fsa;
    if Sequenced(fs) {
      var s := GetSeqno(fs).value;
      AckedKeeps(f, s, now, cfg);
      var g := Acked(f, s, now, cfg);
      XmitKeeps(g, now, cfg);
      var h := Xmit(g, now, cfg);
      var h0 := h.(e := h.e.(ackTimeout := 0));
      AckTimeoutKeeps(h, 0, cfg);
      FsaKeeps(h0, OutAllDone, Some(fs), now, cfg);
    }
  }

  lemma AckTimeoutKeeps<K>(f: Focus<K>, t: nat, cfg: Config)
    requires Good(f, cfg)
    ensures Good(f.(e := f.e.(ackTimeout := t)), cfg)
  {
    GoodFrame(f, f.(e := f.e.(ackTimeout := t)), cfg);
  }

  /** Good, except that a readable head may still wait to be marked. */
  ghost predicate AlmostGood<K>(f: Focus<K>, cfg: Config) {
    && Sane(cfg)
    && f.e.outq.maxlen == cfg.maxq && f.e.inq.maxlen == cfg.maxq
    && Q.OutOk(f.e.outq)
    && Q.InOk(f.e.inq)
    && UnackedOk(f)
    && Listed(f.ipend, f.me, f.e.inq.ready)
    && WindowOk(f.e, cfg)
    && SentOk(f.e.outq, f.sent)
  }

  /** If a head that nobody has marked is readable, this arrival put it there. */
  predicate MarkDue<K>(f: Focus<K>, fs: FrameSet) {
    Q.Readable(f.e.inq) && !f.e.inq.ready ==> (Sequenced(fs) ==> GetSeqno(fs).value.reqid == f.e.inq.next)
  }

  lemma InqSortedMarkDue(u: Q.Queue, fs: FrameSet)
    requires Q.Readable(u) ==> u.ready
    ensures var v := Q.InqSorted(u, fs).0;
            Q.Readable(v) && !v.ready ==> (Sequenced(fs) ==> GetSeqno(fs).value.reqid == v.next)
  {
    if Sequenced(fs) {
      Q.InsertMembers(Q.EnterSession(u, GetSeqno(fs).value).q, fs);
    }
  }

  /** GotStart never does more than move the state. */
  lemma StartOnlyMoves<K>(f: Focus<K>, fs: Option<FrameSet>, now: nat, cfg: Config)
    ensures Fsa(f, GotStart, fs, now, cfg) == f.(e := f.e.(state := NextState(f.e.state, GotStart)))
  {
  }

  /** Filing changes the input queue, and otherwise only what was ACKed last, the ACK timeout and the state. */
  lemma FileShape<K>(f: Focus<K>, fs: FrameSet, now: nat, cfg: Config)
    ensures var g := File(f, fs, now, cfg);
            && g == f.(e := g.e, wire := g.wire) && Sends(f, g)
            && g.e == f.e.(inq := Q.InqSorted(f.e.inq, fs).0, lastAck := g.e.lastAck,
                           ackTimeout := g.e.ackTimeout, state := g.e.state)
  {
    hide Q.InqSorted, Fsa, Compare, Precedes, NextState;
    var f1 := f.(e := f.e.(inq := Q.InqSorted(f.e.inq, fs).0));
    StartOnlyMoves(f1, Some(fs), now, cfg);
    StartOnlyMoves(f1.(e := f1.e.(ackTimeout := now + cfg.ackTimeout)), Some(fs), now, cfg);
  }

  lemma FileKeeps<K>(f: Focus<K>, fs: FrameSet, now: nat, cfg: Config)
    requires Good(f, cfg) && Arrivable(fs)
    ensures AlmostGood(File(f, fs, now, cfg), cfg)
    ensures MarkDue(File(f, fs, now, cfg), fs)
  {
    hide Chained, SentOk, Q.OutOk, Q.InOk, Q.Readable, Q.InqSorted, WindowOk, File;
    FileShape(f, fs, now, cfg);
    Q.InqSortedKeeps(f.e.inq, fs);
    Q.InqSortedMembers(f.e.inq, fs);
    InqSortedMarkDue(f.e.inq, fs);
    WindowFrame(f.e, File(f, fs, now, cfg).e, cfg);
  }

  lemma WindowFrame(e: Elem, d: Elem, cfg: Config)
    requires Q.OutOk(e.outq) && WindowOk(e, cfg)
    requires d.outq == e.outq && d.lastSent == e.lastSent
    ensures WindowOk(d, cfg)
  {
    hide Q.OutOk;
  }

  lemma MarkReadyKeeps<K>(f: Focus<K>, fs: FrameSet, cfg: Config)
    requires AlmostGood(f, cfg) && MarkDue(f, fs)
    ensures Good(MarkReady(f, fs), cfg)
  {
    hide Chained, SentOk, Q.OutOk, WindowOk, Compare;
    var g := MarkReady(f, fs);
    WindowFrame(f.e, g.e, cfg);
    assert multiset(f.ipend + [f.me]) == multiset(f.ipend) + multiset{f.me};
  }

  lemma ReceiveKeeps<K>(f: Focus<K>, fs: FrameSet, now: nat, cfg: Config)
    requires Good(f, cfg) && Arrivable(fs)
    ensures Good(Receive(f, fs, now, cfg), cfg)
  {
    hide Good, AlmostGood, MarkDue, Xmit, Fsa, File, MarkReady, ReceiveAck;
    if fs.fstype == ACK {
      ReceiveAckKeeps(f, fs, now, cfg);
    } else if fs.fstype == CONNNAK {
      FsaKeeps(f, GotConnNak, Some(fs), now, cfg);
    } else {
      FileKeeps(f, fs, now, cfg);
      MarkReadyKeeps(File(f, fs, now, cfg), fs, cfg);
      XmitKeeps(MarkReady(File(f, fs, now, cfg), fs), now, cfg);
    }
  }

  lemma DequeueKeeps<K>(f: Focus<K>, cfg: Config)
    requires Good(f, cfg) && Q.Readable(f.e.inq)
    ensures Good(Dequeue(f), cfg)
  {
    hide Chained, SentOk, Q.OutOk, WindowOk, Compare, Precedes;
    var g := Dequeue(f);
    WindowFrame(f.e, g.e, cfg);
    RemoveOne(f.ipend, f.me);
    assert multiset(Remove(f.ipend, f.me) + [f.me]) == multiset(Remove(f.ipend, f.me)) + multiset{f.me};
    DequeueInOk(f.e.inq);
  }

  lemma DequeueInOk(u: Q.Queue)
    requires Q.InOk(u) && Q.Readable(u)
    ensures Q.InOk(u.(q := u.q[1..], next := if Sequenced(u.q[0]) then u.next + 1 else u.next))
  {
    hide Compare;
    forall i | 0 <= i < |u.q[1..]| && Sequenced(u.q[1..][i]) && Sequenced(u.q[0])
      ensures Q.Height(u.q[1..][i]) >= u.next + 1
    {
      assert Q.Height(u.q[0]) < Q.Height(u.q[i + 1]);
    }
  }

  lemma ReadHeadKeeps<K>(f: Focus<K>, now: nat, cfg: Config)
    requires Good(f, cfg) && Q.Readable(f.e.inq)
    ensures Good(ReadHead(f, now, cfg), cfg)
  {
    hide Good, Xmit, Fsa, Dequeue;
    var fs := f.e.inq.q[0];
    var f1 := Dequeue(f);
    DequeueKeeps(f, cfg);
    FsaKeeps(f1, RcvShutdown, Some(fs), now, cfg);
    var f2 := if fs.fstype == CONNSHUT then Fsa(f1, RcvShutdown, Some(fs), now, cfg) else f1;
    XmitKeeps(f2, now, cfg);
  }
}
