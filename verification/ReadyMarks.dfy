/** When the ready mark of an input queue tells the truth. */
module ReadyMarks {
  import opened FrameSets
  import opened FsProtocolSpec
  import opened FsProtocolInvariants
  import opened FsProtocolShutdown
  import opened Connection
  import Q = FsQueueSpec

  /** Marked ready exactly when the head can be handed out. */
  predicate Exact(u: Q.Queue) {
    u.ready <==> Q.Readable(u)
  }

  /** The arrivals that leave an input queue marked ready with nothing to hand out:
      a move to a newer session by a frameset that is not its first while the mark is set;
      a frameset that looks readable but is refused by a full queue;
      a frameset of an older session, refused, whose id happens to be the next one expected. */
  predicate Spoils(u: Q.Queue, fs: FrameSet) {
    match GetSeqno(fs)
    case None => !u.ready && Q.Full(u)
    case Some(s) =>
      if u.ready then u.session != 0 && s.session > u.session && s.reqid != 1
      else u.session != 0 && s.reqid == u.next
           && (s.session < u.session || (s.session == u.session && Q.Full(u)))
  }

  /** What filing and marking do to an input queue. */
  function Filed(u: Q.Queue, fs: FrameSet): Q.Queue {
    var v := Q.InqSorted(u, fs).0;
    v.(ready := v.ready || (Sequenced(fs) ==> GetSeqno(fs).value.reqid == v.next))
  }

  lemma InsertHead(w: Q.Queue, fs: FrameSet)
    requires Q.InOk(w) && w.session != 0
    requires Sequenced(fs) && GetSeqno(fs).value.session == w.session && Q.Height(fs) >= w.next
    ensures Q.Readable(w.(q := Q.InsertSorted(w.q, fs))) <==> Q.Readable(w) || Q.Height(fs) == w.next
  {
    Q.InsertMembers(w.q, fs);
    if w.q != [] {
      assert Q.Below(w.q, GetSeqno(fs).value) > 0 <==> Q.GoesAfter(GetSeqno(fs).value, w.q[0]);
    }
  }

  /** An arrival makes the ready mark wrong exactly in the cases listed by Spoils. */
  lemma ArrivalSpoilsIff(u: Q.Queue, fs: FrameSet)
    requires Q.InOk(u) && Exact(u)
    requires Sequenced(fs) ==> GetSeqno(fs).value.session != 0
    ensures Exact(Filed(u, fs)) <==> !Spoils(u, fs)
  {
    hide Q.InsertSorted, Compare;
    if Sequenced(fs) {
      var s := GetSeqno(fs).value;
      if u.session == 0 || s.session >= u.session {
        var w := Q.EnterSession(u, s);
        Q.EnterSessionKeeps(u, s);
        if s.reqid >= w.next { InsertHead(w, fs); }
        if u.session == 0 && u.q != [] { assert !Sequenced(u.q[0]); }
      }
    }
  }

  /** An old session's frameset marks even an empty queue as ready. */
  lemma OldSessionMarksEmptyQueue()
    ensures var u := Q.Queue([], 7, 5, 32, 0, false);
            var stale := FrameSet(34, Some(Seqno(4, 7, 0)), []);
            Q.InOk(u) && Exact(u) && Filed(u, stale).ready && Filed(u, stale).q == []
  {
  }

  /** Filing and marking on a connection are Filed on its input queue. */
  lemma FiledIs<K>(f: Focus<K>, fs: FrameSet, now: nat, cfg: Config)
    ensures MarkReady(File(f, fs, now, cfg), fs).e.inq == Filed(f.e.inq, fs)
  {
    hide Q.InqSorted, File;
    FileShape(f, fs, now, cfg);
  }

  lemma EmptiedExact(u: Q.Queue)
    requires Exact(u)
    ensures Exact(Emptied(u))
  {
  }

  /** Every operation but a spoiling arrival keeps a truthful ready mark. */
  lemma StepKeepsExact<K>(f: Focus<K>, op: Op, now: nat, cfg: Config)
    requires Good(f, cfg) && Exact(f.e.inq) && Enabled(f, op)
    requires op.Arrive? && op.fs.fstype != ACK && op.fs.fstype != CONNNAK ==> !Spoils(f.e.inq, op.fs)
    ensures Exact(Step(f, op, now, cfg).e.inq)
  {
    hide Good, Send1, Receive, ReadHead, AckSeqno, Xmit, Fsa, Exact, Emptied;
    EmptiedExact(f.e.inq);
    match op
    case Send(fs) => Send1Inq(f, fs, now, cfg);
    case Arrive(fs) => ReceiveExact(f, fs, now, cfg);
    case Read =>
      DequeueExact(f);
      EmptiedExact(Dequeue(f).e.inq);
      ReadHeadInq(f, now, cfg);
    case ClientAck(s) => AckSeqnoEffect(f, s);
    case Tick => XmitInq(f, now, cfg);
    case CloseRequest => FsaInq(f, ReqShutdown, None, now, cfg);
    case ShutTimer => FsaInq(f, ShutTimedOut, None, now, cfg);
  }

  lemma DequeueExact<K>(f: Focus<K>)
    requires Q.Readable(f.e.inq)
    ensures Exact(Dequeue(f).e.inq)
  {
  }

  lemma ReceiveExact<K>(f: Focus<K>, fs: FrameSet, now: nat, cfg: Config)
    requires Good(f, cfg) && Exact(f.e.inq) && Arrivable(fs)
    requires fs.fstype != ACK && fs.fstype != CONNNAK ==> !Spoils(f.e.inq, fs)
    ensures Exact(Receive(f, fs, now, cfg).e.inq)
  {
    hide Good, ReceiveAck, Fsa, Exact, Emptied, Spoils, File, Xmit;
    EmptiedExact(f.e.inq);
    if fs.fstype == ACK {
      ReceiveAckInq(f, fs, now, cfg);
    } else if fs.fstype == CONNNAK {
      FsaInq(f, GotConnNak, Some(fs), now, cfg);
    } else {
      var g := ReceiveInq(f, fs, now, cfg);
      FiledIs(f, fs, now, cfg);
      assert Q.InOk(f.e.inq) by { GoodInOk(f, cfg); }
      ArrivalSpoilsIff(f.e.inq, fs);
      EmptiedExact(g.e.inq);
    }
  }

  lemma GoodInOk<K>(f: Focus<K>, cfg: Config)
    requires Good(f, cfg)
    ensures Q.InOk(f.e.inq)
  {
  }

  /** A spoiling arrival leaves the mark wrong unless an ACK timeout closes the connection in the same step. */
  lemma SpoiledUnlessClosed<K>(f: Focus<K>, fs: FrameSet, now: nat, cfg: Config)
    requires Good(f, cfg) && Exact(f.e.inq) && Arrivable(fs)
    requires fs.fstype != ACK && fs.fstype != CONNNAK && Spoils(f.e.inq, fs)
    ensures var g := Receive(f, fs, now, cfg);
            !Exact(g.e.inq) || (g.e.inq.q == [] && Filed(f.e.inq, fs).q != [])
  {
    hide Good, ReceiveAck, Fsa, Spoils, File, Xmit, Q.InqSorted;
    var g := ReceiveInq(f, fs, now, cfg);
    FiledIs(f, fs, now, cfg);
    assert Q.InOk(f.e.inq) by { GoodInOk(f, cfg); }
    ArrivalSpoilsIff(f.e.inq, fs);
    assert g.e.inq.ready ==> !Q.Readable(g.e.inq);
  }
}
