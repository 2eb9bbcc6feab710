/** One connection over any run: every operation a client, the network or a timer can start. */
module Connection {
  import opened FrameSets
  import opened FsProtocolSpec
  import opened FsProtocolInvariants
  import opened FsProtocolShutdown
  import Q = FsQueueSpec

  datatype Op =
    | Send(fs: FrameSet)        // the client sends a frameset
    | Arrive(fs: FrameSet)      // a frameset arrives
    | Read                      // the client reads the head of the input queue
    | ClientAck(s: Seqno)       // the client acknowledges a frameset
    | Tick                      // the retransmit timer, or any other attempt to transmit
    | CloseRequest              // the client closes the connection
    | ShutTimer                 // the shutdown timer fires

  /** Clients send framesets of their own types; the engine sends its ACKs and CONNSHUTs itself. */
  predicate ClientFrame(fs: FrameSet) {
    Sendable(fs) && fs.fstype != ACK && fs.fstype != CONNSHUT && fs.fstype != CONNNAK
  }

  predicate Enabled<K>(f: Focus<K>, op: Op) {
    match op
    case Send(fs) => ClientFrame(fs)
    case Arrive(fs) => Arrivable(fs)
    case Read => Q.Readable(f.e.inq)
    case ShutTimer => f.e.shutTimer
    case _ => true
  }

  function Step<K(==)>(f: Focus<K>, op: Op, now: nat, cfg: Config): Focus<K>
    requires Enabled(f, op)
  {
    match op
    case Send(fs) => Send1(f, fs, now, cfg).0
    case Arrive(fs) => Receive(f, fs, now, cfg)
    case Read => ReadHead(f, now, cfg)
    case ClientAck(s) => AckSeqno(f, s)
    case Tick => Xmit(f, now, cfg)
    case CloseRequest => Fsa(f, ReqShutdown, None, now, cfg)
    case ShutTimer => Fsa(f, ShutTimedOut, None, now, cfg)
  }

  datatype Event = Event(op: Op, now: nat)

  /** The events can happen one after the other. */
  predicate Possible<K(==)>(f: Focus<K>, events: seq<Event>, cfg: Config)
    decreases |events|
  {
    events != [] ==>
      Enabled(f, events[0].op) && Possible(Step(f, events[0].op, events[0].now, cfg), events[1..], cfg)
  }

  function Exec<K(==)>(f: Focus<K>, events: seq<Event>, cfg: Config): Focus<K>
    requires Possible(f, events, cfg)
    decreases |events|
  {
    if events == [] then f else Exec(Step(f, events[0].op, events[0].now, cfg), events[1..], cfg)
  }

  predicate NakFree(op: Op) {
    op.Arrive? ==> op.fs.fstype != CONNNAK
  }

  lemma StepKeepsGood<K>(f: Focus<K>, op: Op, now: nat, cfg: Config)
    requires Good(f, cfg) && Enabled(f, op)
    ensures Good(Step(f, op, now, cfg), cfg)
  {
    hide Good, Send1, Receive, ReadHead, AckSeqno, Xmit, Fsa;
    match op
    case Send(fs) => Send1Keeps(f, fs, now, cfg);
    case Arrive(fs) => ReceiveKeeps(f, fs, now, cfg);
    case Read => ReadHeadKeeps(f, now, cfg);
    case ClientAck(s) => AckSeqnoKeeps(f, s, cfg);
    case Tick => XmitKeeps(f, now, cfg);
    case CloseRequest => FsaKeeps(f, ReqShutdown, None, now, cfg);
    case ShutTimer => FsaKeeps(f, ShutTimedOut, None, now, cfg);
  }

  lemma StepKeepsShut<K>(f: Focus<K>, op: Op, now: nat, cfg: Config)
    requires Good(f, cfg) && ShutOk(f) && Enabled(f, op) && NakFree(op)
    ensures ShutOk(Step(f, op, now, cfg))
  {
    hide Good, ShutIsLast, Send1, Receive, ReadHead, AckSeqno, Xmit, Fsa;
    match op
    case Send(fs) => Send1Shut(f, fs, now, cfg);
    case Arrive(fs) => ReceiveShut(f, fs, now, cfg);
    case Read => ReadHeadShut(f, now, cfg);
    case ClientAck(s) => AckSeqnoEffect(f, s);
    case Tick => XmitShut(f, now, cfg);
    case CloseRequest => FsaShut(f, ReqShutdown, None, now, cfg);
    case ShutTimer => FsaShut(f, ShutTimedOut, None, now, cfg);
  }

  /** An arriving CONNNAK breaks the shutdown invariant exactly when it finds the connection shutting down: the
      tables then go to NONE without closing, which leaves the timer armed. */
  lemma NakKeepsShutIff<K>(f: Focus<K>, nak: FrameSet, now: nat, cfg: Config)
    requires Good(f, cfg) && ShutOk(f) && nak.fstype == CONNNAK
    ensures ShutOk(Receive(f, nak, now, cfg)) <==> !InShutdown(f.e.state)
  {
    hide Good, Send1, AckMe, Settle, ShutIsLast;
    var act := ActionsFor(f.e.state, GotConnNak);
    if InShutdown(f.e.state) {
      IdleSettle(f, act, NONE);
    } else {
      SettleClosed(f, act, NextState(f.e.state, GotConnNak));
    }
  }

  lemma IdleSettle<K>(f: Focus<K>, act: Actions, next: State)
    requires act == NOTHING
    ensures Settle(f, act, next) == f.(e := f.e.(state := next))
  {
  }

  lemma SettleClosed<K>(f: Focus<K>, act: Actions, next: State)
    requires act == CLOSE
    ensures var g := Settle(f, act, next);
            && g.e.state == next && g.sent == f.sent && !g.e.shutTimer && g.e.outq.q == [] && g.e.outq.next == 1
  {
    hide Remove;
  }

  /** In every run the structural invariants hold; in a run without a CONNNAK so does the shutdown invariant. */
  lemma {:induction false} RunKeeps<K>(f: Focus<K>, events: seq<Event>, cfg: Config)
    requires Good(f, cfg) && Possible(f, events, cfg)
    ensures Good(Exec(f, events, cfg), cfg)
    ensures ShutOk(f) && (forall i :: 0 <= i < |events| ==> NakFree(events[i].op)) ==> ShutOk(Exec(f, events, cfg))
    decreases |events|
  {
    hide Good, ShutOk, Step;
    if events == [] {
    } else {
      StepKeepsGood(f, events[0].op, events[0].now, cfg);
      if ShutOk(f) && NakFree(events[0].op) { StepKeepsShut(f, events[0].op, events[0].now, cfg); }
      RunKeeps(Step(f, events[0].op, events[0].now, cfg), events[1..], cfg);
    }
  }

  // ---------- What the invariants mean ----------

  /** No two accepted framesets carry the same session and request id: later ones are strictly above earlier ones. */
  lemma {:induction false} NoIdReused(sent: seq<FrameSet>, i: nat, j: nat)
    requires Chained(sent) && i < j < |sent|
    ensures Precedes(GetSeqno(sent[i]).value, GetSeqno(sent[j]).value)
    decreases j - i
  {
    assert Follows(sent[j - 1], sent[j]);
    if i == j - 1 {
    } else {
      NoIdReused(sent, i, j - 1);
    }
  }

  function Rank(state: State): nat {
    match state
    case NONE => 0
    case SHUT3 => 1
    case SHUT2 => 1
    case SHUT1 => 2
    case INIT => 3
    case UP => 3
  }

  /** A connection that is shutting down keeps going down, or is back in NONE with a new, empty session. */
  predicate Descends<K>(f: Focus<K>, g: Focus<K>) {
    if InShutdown(g.e.state) then
      Rank(g.e.state) <= Rank(f.e.state) && g.e.outq.session == f.e.outq.session && g.sent == f.sent
    else
      g.e.state == NONE && g.e.outq.q == [] && g.e.outq.next == 1 && g.e.outq.session == f.e.outq.session + 1
      && g.e.inq.session == 0 && g.sent == f.sent
  }

  /** Inside shutdown the tables only go down, send nothing, and close exactly on the way to NONE. */
  lemma TablesDescend(state: State, input: Input)
    requires InShutdown(state) && input != GotConnNak
    ensures var act, next := ActionsFor(state, input), NextState(state, input);
            && !act.sndShut && !act.timer
            && (act.noTime ==> act.close)
            && (act.close <==> next == NONE)
            && (next != NONE ==> InShutdown(next) && Rank(next) <= Rank(state))
            && (input == ShutTimedOut ==> act.close)
  {
  }

  lemma FsaDescends<K>(f: Focus<K>, input: Input, fs: Option<FrameSet>, now: nat, cfg: Config)
    requires InShutdown(f.e.state) && f.e.outq.session != 0 && input != GotConnNak
    ensures Descends(f, Fsa(f, input, fs, now, cfg))
    ensures input == ShutTimedOut ==> Fsa(f, input, fs, now, cfg).e.state == NONE
  {
    hide Send1, AckMe, NextState, ActionsFor, Settle, Rank, Closed, Descends;
    TablesDescend(f.e.state, input);
    var act := ActionsFor(f.e.state, input);
    var f1 := if act.ackMe then AckMe(f, fs) else f;
    AckMeEffect(f, fs);
    SettleUnfolds(f1, act, NextState(f.e.state, input));
    SettledDescends(f, f1, act, NextState(f.e.state, input));
  }

  lemma SettledDescends<K>(f: Focus<K>, f1: Focus<K>, act: Actions, next: State)
    requires f1 == f.(e := f.e.(lastAck := f1.e.lastAck), wire := f1.wire) && f.e.outq.session != 0
    requires if act.close then Closed(f1, Settle(f1, act, next))
             else Settle(f1, act, next) == f1.(e := f1.e.(shutTimer := f1.e.shutTimer || act.timer, state := next))
                  && InShutdown(next) && Rank(next) <= Rank(f.e.state)
    ensures Descends(f, Settle(f1, act, next))
    ensures act.close ==> Settle(f1, act, next).e.state == NONE
  {
    hide Settle, Rank;
  }

  lemma XmitDescends<K>(f: Focus<K>, now: nat, cfg: Config)
    requires Good(f, cfg)
    ensures InShutdown(f.e.state) && f.e.outq.session != 0 ==> Descends(f, Xmit(f, now, cfg))
    ensures f.e.state == NONE ==> Quiet(f, Xmit(f, now, cfg))
  {
    hide Good, Xmit;
    XmitEffect(f, now, cfg);
  }

  lemma ReceiveAckDescends<K>(f: Focus<K>, fs: FrameSet, now: nat, cfg: Config)
    requires Good(f, cfg) && ShutOk(f) && InShutdown(f.e.state)
    ensures Descends(f, ReceiveAck(f, fs, now, cfg))
  {
    hide Good, ShutIsLast, Xmit, Fsa, Q.AckThrough;
    if Sequenced(fs) {
      var s := GetSeqno(fs).value;
      var g := Acked(f, s, now, cfg);
      AckedKeeps(f, s, now, cfg);
      AckedShape(f, s, now, cfg);
      XmitDescends(g, now, cfg);
      var h := Xmit(g, now, cfg);
      var h0 := h.(e := h.e.(ackTimeout := 0));
      if InShutdown(h.e.state) {
        FsaDescends(h0, OutAllDone, Some(fs), now, cfg);
      } else {
        NoneIgnores(h0, OutAllDone, Some(fs), now, cfg);
      }
    }
  }

  lemma AckedShape<K>(f: Focus<K>, s: Seqno, now: nat, cfg: Config)
    requires Good(f, cfg)
    ensures var g := Acked(f, s, now, cfg);
            && g.e.state == f.e.state && g.sent == f.sent && g.me == f.me
            && g.e.outq.session == f.e.outq.session && g.e.inq == f.e.inq
  {
    hide Q.AckThrough, Q.OutOk, Q.FirstId, Q.InOk, SentOk, UnackedOk, ReadyOk, WindowOk;
    Q.AckThroughOut(f.e.outq, s);
  }

  lemma NoneIgnores<K>(f: Focus<K>, input: Input, fs: Option<FrameSet>, now: nat, cfg: Config)
    requires f.e.state == NONE && (input == OutAllDone || input == AckTimedOut || input == ShutTimedOut)
    ensures Fsa(f, input, fs, now, cfg) == f
  {
  }

  lemma ReceiveDescends<K>(f: Focus<K>, fs: FrameSet, now: nat, cfg: Config)
    requires Good(f, cfg) && ShutOk(f) && InShutdown(f.e.state) && Arrivable(fs) && fs.fstype != CONNNAK
    ensures Descends(f, Receive(f, fs, now, cfg))
  {
    hide Good, AlmostGood, MarkDue, ShutIsLast, Xmit, File, ReceiveAck;
    if fs.fstype == ACK {
      ReceiveAckDescends(f, fs, now, cfg);
    } else {
      FileShape(f, fs, now, cfg);
      FileState(f, fs, now, cfg);
      FileKeeps(f, fs, now, cfg);
      MarkReadyKeeps(File(f, fs, now, cfg), fs, cfg);
      XmitDescends(MarkReady(File(f, fs, now, cfg), fs), now, cfg);
    }
  }

  lemma ReadHeadDescends<K>(f: Focus<K>, now: nat, cfg: Config)
    requires Good(f, cfg) && ShutOk(f) && InShutdown(f.e.state) && Q.Readable(f.e.inq)
    ensures Descends(f, ReadHead(f, now, cfg))
  {
    hide Good, ShutIsLast, Xmit, Fsa;
    var fs := f.e.inq.q[0];
    var f1 := Dequeue(f);
    DequeueKeeps(f, cfg);
    FsaKeeps(f1, RcvShutdown, Some(fs), now, cfg);
    FsaDescends(f1, RcvShutdown, Some(fs), now, cfg);
    XmitDescends(if fs.fstype == CONNSHUT then Fsa(f1, RcvShutdown, Some(fs), now, cfg) else f1, now, cfg);
  }

  /** No operation takes a connection in shutdown anywhere but further down. */
  lemma ShutdownDescends<K>(f: Focus<K>, op: Op, now: nat, cfg: Config)
    requires Good(f, cfg) && ShutOk(f) && InShutdown(f.e.state) && Enabled(f, op) && NakFree(op)
    ensures Descends(f, Step(f, op, now, cfg))
  {
    hide Good, ShutIsLast, Send1, Receive, ReadHead, AckSeqno, Xmit, Fsa;
    match op
    case Send(fs) => Send1Refuses(f, fs, now, cfg);
    case Arrive(fs) => ReceiveDescends(f, fs, now, cfg);
    case Read => ReadHeadDescends(f, now, cfg);
    case ClientAck(s) => AckSeqnoEffect(f, s);
    case Tick => XmitDescends(f, now, cfg);
    case CloseRequest => FsaDescends(f, ReqShutdown, None, now, cfg);
    case ShutTimer => FsaDescends(f, ShutTimedOut, None, now, cfg);
  }

  /** Throughout shutdown the timer is armed, and its firing always ends in NONE with the next session. */
  lemma ShutTimerEnds<K>(f: Focus<K>, now: nat, cfg: Config)
    requires Good(f, cfg) && ShutOk(f) && InShutdown(f.e.state)
    ensures Enabled(f, ShutTimer)
    ensures Step(f, ShutTimer, now, cfg).e.state == NONE
    ensures Descends(f, Step(f, ShutTimer, now, cfg))
  {
    hide Good, ShutIsLast, Fsa;
    FsaDescends(f, ShutTimedOut, None, now, cfg);
  }

  /** A run that takes a connection out of shutdown has passed NONE, with an empty queue in the next session and
      nothing enqueued since: INIT and UP are only reached from there. */
  lemma {:induction false} ShutdownLeadsToNone<K>(f: Focus<K>, events: seq<Event>, cfg: Config) returns (k: nat)
    requires Good(f, cfg) && ShutOk(f) && InShutdown(f.e.state) && Possible(f, events, cfg)
    requires forall i :: 0 <= i < |events| ==> NakFree(events[i].op)
    ensures k <= |events| && Possible(f, events[..k], cfg)
    ensures var g := Exec(f, events[..k], cfg);
            if k == |events| then Descends(f, g)
            else g.e.state == NONE && g.e.outq.q == [] && g.e.outq.next == 1 && g.sent == f.sent
                 && g.e.outq.session == f.e.outq.session + 1
    decreases |events|
  {
    hide Good, ShutOk, Step, Enabled, Rank;
    assert events[..0] == [];
    k := 0;
    if events == [] {
    } else {
      var g := Step(f, events[0].op, events[0].now, cfg);
      ShutdownDescends(f, events[0].op, events[0].now, cfg);
      StepKeepsGood(f, events[0].op, events[0].now, cfg);
      StepKeepsShut(f, events[0].op, events[0].now, cfg);
      if InShutdown(g.e.state) {
        var j := ShutdownLeadsToNone(g, events[1..], cfg);
        k := j + 1;
        assert events[..k][1..] == events[1..][..j];
      } else {
        k := 1;
        assert events[..1][1..] == [];
      }
    }
  }
}
