/** The per-connection protocol operations as functions on connection values. */
module FsProtocolSpec {
  import opened FrameSets
  import Q = FsQueueSpec

  datatype State = NONE | INIT | UP | SHUT1 | SHUT2 | SHUT3

  datatype Input =
    | GotStart | ReqSend | GotConnNak | ReqShutdown | RcvShutdown | AckTimedOut | OutAllDone | ShutTimedOut

  /** The actions of the automaton that change anything (the others only log). */
  datatype Actions = Actions(close: bool, ackMe: bool, sndShut: bool, timer: bool, noTime: bool)

  const NOTHING := Actions(false, false, false, false, false)
  const CLOSE := Actions(true, false, false, false, false)
  const ACKME := Actions(false, true, false, false, false)
  const SHUT_N_TIMER := Actions(false, false, true, true, false)
  const ACK_N_SHUT := Actions(false, true, true, true, false)
  const CLOSE_N_NOTIME := Actions(true, false, false, false, true)
  const ACK_N_CLOSE_N_NOTIME := Actions(true, true, false, false, true)

  function NextState(state: State, input: Input): State {
    match (state, input)
    case (NONE, GotStart) => UP
    case (NONE, ReqSend) => INIT
    case (NONE, RcvShutdown) => SHUT2
    case (NONE, _) => NONE
    case (INIT, ReqShutdown) => SHUT1
    case (INIT, RcvShutdown) => SHUT2
    case (INIT, AckTimedOut) => NONE
    case (INIT, OutAllDone) => UP
    case (INIT, _) => INIT
    case (UP, GotConnNak) => NONE
    case (UP, ReqShutdown) => SHUT1
    case (UP, RcvShutdown) => SHUT2
    case (UP, _) => UP
    case (SHUT1, GotConnNak) => NONE
    case (SHUT1, RcvShutdown) => SHUT2
    case (SHUT1, AckTimedOut) => NONE
    case (SHUT1, OutAllDone) => SHUT3
    case (SHUT1, ShutTimedOut) => NONE
    case (SHUT1, _) => SHUT1
    case (SHUT2, GotConnNak) => NONE
    case (SHUT2, AckTimedOut) => NONE
    case (SHUT2, OutAllDone) => NONE
    case (SHUT2, ShutTimedOut) => NONE
    case (SHUT2, _) => SHUT2
    case (SHUT3, GotConnNak) => NONE
    case (SHUT3, RcvShutdown) => NONE
    case (SHUT3, AckTimedOut) => NONE
    case (SHUT3, ShutTimedOut) => NONE
    case (SHUT3, _) => SHUT3
  }

  function ActionsFor(state: State, input: Input): Actions {
    match (state, input)
    case (NONE, GotConnNak) => CLOSE
    case (NONE, ReqShutdown) => CLOSE
    case (NONE, RcvShutdown) => SHUT_N_TIMER
    case (NONE, _) => NOTHING
    case (INIT, GotConnNak) => CLOSE
    case (INIT, ReqShutdown) => SHUT_N_TIMER
    case (INIT, RcvShutdown) => ACK_N_SHUT
    case (INIT, AckTimedOut) => CLOSE
    case (INIT, _) => NOTHING
    case (UP, GotConnNak) => CLOSE
    case (UP, ReqShutdown) => SHUT_N_TIMER
    case (UP, RcvShutdown) => ACK_N_SHUT
    case (UP, _) => NOTHING
    case (SHUT1, RcvShutdown) => ACKME
    case (SHUT1, AckTimedOut) => CLOSE_N_NOTIME
    case (SHUT1, ShutTimedOut) => CLOSE
    case (SHUT1, _) => NOTHING
    case (SHUT2, RcvShutdown) => ACKME
    case (SHUT2, AckTimedOut) => CLOSE_N_NOTIME
    case (SHUT2, OutAllDone) => CLOSE_N_NOTIME
    case (SHUT2, ShutTimedOut) => CLOSE
    case (SHUT2, _) => NOTHING
    case (SHUT3, RcvShutdown) => ACK_N_CLOSE_N_NOTIME
    case (SHUT3, AckTimedOut) => CLOSE_N_NOTIME
    case (SHUT3, ShutTimedOut) => CLOSE
    case (SHUT3, _) => NOTHING
  }

  predicate InShutdown(state: State) {
    state == SHUT1 || state == SHUT2 || state == SHUT3
  }

  /** The settings of an FsProtocol, the session id that this process gives new output queues, and the queue limit. */
  datatype Config = Config(window: nat, rexmit: nat, ackTimeout: nat, processSession: nat, maxq: nat)

  predicate Sane(cfg: Config) {
    cfg.window > 0 && cfg.rexmit > 0 && cfg.processSession > 0
  }

  /** The fields of an FsProtoElem. A time of 0 means "not set". */
  datatype Elem = Elem(
    outq: Q.Queue,
    inq: Q.Queue,
    lastAck: Option<Seqno>,
    lastSent: Option<Seqno>,
    nextRexmit: nat,
    ackTimeout: nat,
    state: State,
    shutTimer: bool,
    finalizeTimer: bool,
    shutdownComplete: bool)

  function FreshElem(maxlen: nat, qid: nat): Elem {
    Elem(Q.Fresh(maxlen, qid), Q.Fresh(maxlen, qid), None, None, 0, 0, NONE, false, false, false)
  }

  /** One connection together with what its operations may touch in its FsProtocol: the list of connections
      with readable input, the list of connections with unacknowledged output, and the packets sent so far.
      The history field sent lists every frameset that this connection's output queue has ever accepted. */
  datatype Focus<K> = Focus(me: K, e: Elem, ipend: seq<K>, unacked: seq<K>, wire: seq<Packet<K>>, sent: seq<FrameSet>)

  /** Remove the first occurrence, if any. */
  function Remove<K(==)>(list: seq<K>, k: K): seq<K> {
    if list == [] then []
    else if list[0] == k then list[1..]
    else [list[0]] + Remove(list[1..], k)
  }

  function Transmit<K>(f: Focus<K>, fs: FrameSet): Focus<K> {
    f.(wire := f.wire + [Packet(f.me, fs)])
  }

  /** Put a connection back into the no-connection state. */
  function Reinit<K(==)>(f: Focus<K>): Focus<K> {
    var outq := f.e.outq;
    var inq := f.e.inq;
    var unacked := if outq.q == [] then f.unacked else Remove(f.unacked, f.me);
    var ipend := if inq.q == [] then f.ipend else Remove(f.ipend, f.me);
    f.(unacked := unacked,
       ipend := ipend,
       e := f.e.(
         outq := outq.(q := [], next := 1,
                       session := if outq.session == 0 then 0 else outq.session + 1,
                       ready := if outq.q == [] then outq.ready else false),
         inq := inq.(q := [], next := 1, session := 0, ready := if inq.q == [] then inq.ready else false),
         lastAck := None, lastSent := None, shutTimer := false, finalizeTimer := false,
         nextRexmit := 0, ackTimeout := 0, state := NONE, shutdownComplete := false))
  }

  /** Send an ACK for a sequence number, unless the input queue has moved to another session. */
  function AckSeqno<K>(f: Focus<K>, s: Seqno): Focus<K> {
    if s.session != f.e.inq.session && f.e.inq.session != 0 then f
    else
      var g := Transmit(f, AckOf(s));
      if f.e.lastAck == None || Precedes(f.e.lastAck.value, s) then g.(e := g.e.(lastAck := Some(s))) else g
  }

  /** Acknowledge the frameset that the automaton was given, if it has a sequence number. */
  function AckMe<K>(f: Focus<K>, fs: Option<FrameSet>): Focus<K> {
    if fs.Some? && Sequenced(fs.value) then AckSeqno(f, GetSeqno(fs.value).value) else f
  }

  /** Inputs whose actions may include sending a CONNSHUT. */
  predicate MaySendShut(input: Input) {
    input == ReqShutdown || input == RcvShutdown
  }

  lemma OnlyShutdownInputsSendShut(state: State, input: Input)
    ensures ActionsFor(state, input).sndShut ==> MaySendShut(input)
  {
  }

  /** The connection automaton. The state is stored last, after the actions, which may re-enter the automaton. */
  function Fsa<K(==)>(f: Focus<K>, input: Input, fs: Option<FrameSet>, now: nat, cfg: Config): Focus<K>
    decreases if MaySendShut(input) then 1 else 0, 0, 0
  {
    OnlyShutdownInputsSendShut(f.e.state, input);
    var act := ActionsFor(f.e.state, input);
    var f1 := if act.ackMe then AckMe(f, fs) else f;
    var f2 := if act.sndShut then Send1(f1, ShutFrameSet(), now, cfg).0 else f1;
    Settle(f2, act, NextState(f.e.state, input))
  }

  /** The actions that follow any sending: timers, close, and the new state. */
  function Settle<K(==)>(f: Focus<K>, act: Actions, next: State): Focus<K> {
    var f1 := f.(e := f.e.(shutTimer := if act.noTime then false else (f.e.shutTimer || act.timer)));
    var f2 := if act.close then
                var g := Reinit(f1);
                g.(e := g.e.(shutdownComplete := true, finalizeTimer := true))
              else f1;
    f2.(e := f2.e.(state := next))
  }

  /** Enqueue one frameset on a connection and transmit what the window allows. */
  function Send1<K(==)>(f: Focus<K>, fs: FrameSet, now: nat, cfg: Config): (Focus<K>, bool)
    decreases 0, 2
  {
    if InShutdown(f.e.state) then (f, true)
    else
      var (f1, ok) := Append(Fsa(f, ReqSend, None, now, cfg), fs, now, cfg);
      (Xmit(f1, now, cfg), ok)
  }

  /** Send1's enqueueing, with the bookkeeping that comes before it when the queue was empty. */
  function Append<K(==)>(f: Focus<K>, fs: FrameSet, now: nat, cfg: Config): (Focus<K>, bool) {
    var f2 := if f.e.outq.q == [] then
                f.(unacked := [f.me] + f.unacked,
                   e := f.e.(nextRexmit := now + cfg.rexmit, ackTimeout := now + cfg.ackTimeout))
              else f;
    Accept(f2, fs, cfg)
  }

  /** The enqueueing step of Send1. */
  function Accept<K>(f: Focus<K>, fs: FrameSet, cfg: Config): (Focus<K>, bool) {
    var (outq, ok) := Q.Enq(f.e.outq, fs, cfg.processSession);
    (f.(e := f.e.(outq := outq),
        sent := if ok then f.sent + [Q.Stamp(f.e.outq, fs, cfg.processSession)] else f.sent),
     ok)
  }

  /** Transmit the framesets from position i on that have not been transmitted before. */
  function SendNew<K>(f: Focus<K>, i: nat): Focus<K>
    requires i <= |f.e.outq.q|
    decreases |f.e.outq.q| - i
  {
    if i == |f.e.outq.q| then f
    else
      var fs := f.e.outq.q[i];
      if f.e.lastSent.Some? && Sequenced(fs) && !Precedes(f.e.lastSent.value, GetSeqno(fs).value) then SendNew(f, i + 1)
      else
        var g := Transmit(f, fs);
        SendNew(if Sequenced(fs) then g.(e := g.e.(lastSent := GetSeqno(fs))) else g, i + 1)
  }

  /** Transmit new framesets if the window is open, and retransmit the oldest one if it is time. */
  function Xmit<K(==)>(f: Focus<K>, now: nat, cfg: Config): Focus<K>
    decreases 0, 1
  {
    var f1 := if |f.e.outq.q| < cfg.window then SendNew(f, 0) else f;
    var f2 := if f1.e.nextRexmit == 0 && f1.e.outq.q != [] then f1.(e := f1.e.(nextRexmit := now + cfg.rexmit))
              else if f1.e.nextRexmit != 0 && now > f1.e.nextRexmit then Rexmit(f1, now, cfg)
              else f1;
    if f.e.outq.q == [] && f2.e.outq.q != [] then f2.(unacked := [f2.me] + f2.unacked) else f2
  }

  /** Retransmit the oldest frameset, and give up waiting for its ACK when that has taken too long. */
  function Rexmit<K(==)>(f: Focus<K>, now: nat, cfg: Config): Focus<K>
    decreases 0, 0, 1
  {
    if f.e.outq.q == [] then f.(e := f.e.(nextRexmit := 0))
    else
      var g := Transmit(f.(e := f.e.(nextRexmit := now + cfg.rexmit)), f.e.outq.q[0]);
      if now > g.e.ackTimeout then
        var h := Fsa(g, AckTimedOut, None, now, cfg);
        h.(e := h.e.(ackTimeout := now + cfg.ackTimeout))
      else g
  }

  /** An ACK has arrived. */
  function ReceiveAck<K(==)>(f: Focus<K>, fs: FrameSet, now: nat, cfg: Config): Focus<K> {
    if !Sequenced(fs) then f
    else
      var (outq, count) := Q.AckThrough(f.e.outq, GetSeqno(fs).value);
      var f1 := f.(e := f.e.(outq := outq));
      if count < 0 then f1
      else if outq.q == [] then
        var f2 := Xmit(f1.(unacked := Remove(f1.unacked, f1.me), e := f1.e.(nextRexmit := 0)), now, cfg);
        var f3 := f2.(e := f2.e.(ackTimeout := 0));
        if count > 0 then Fsa(f3, OutAllDone, Some(fs), now, cfg) else f3
      else
        Xmit(f1.(e := f1.e.(ackTimeout := now + cfg.ackTimeout)), now, cfg)
  }

  /** File an arriving frameset in the input queue, or repeat the last ACK if it covers the frameset. */
  function File<K(==)>(f: Focus<K>, fs: FrameSet, now: nat, cfg: Config): Focus<K> {
    var (inq, ok) := Q.InqSorted(f.e.inq, fs);
    var f1 := f.(e := f.e.(inq := inq));
    match GetSeqno(fs)
    case None => f1
    case Some(s) =>
      if ok then
        var f2 := if f1.e.ackTimeout == 0 then f1.(e := f1.e.(ackTimeout := now + cfg.ackTimeout)) else f1;
        if s.reqid == 1 then Fsa(f2, GotStart, Some(fs), now, cfg) else f2
      else if f1.e.lastAck.Some? && s.session == f1.e.lastAck.value.session && Compare(s, f1.e.lastAck.value) <= 0 then
        AckSeqno(f1, f1.e.lastAck.value)
      else f1
  }

  /** Put the connection on the list of readable ones if this arrival looks readable. */
  function MarkReady<K>(f: Focus<K>, fs: FrameSet): Focus<K> {
    if !f.e.inq.ready && (Sequenced(fs) ==> GetSeqno(fs).value.reqid == f.e.inq.next) then
      f.(ipend := f.ipend + [f.me], e := f.e.(inq := f.e.inq.(ready := true)))
    else f
  }

  /** A frameset has arrived for this connection. */
  function Receive<K(==)>(f: Focus<K>, fs: FrameSet, now: nat, cfg: Config): Focus<K> {
    if fs.fstype == ACK then ReceiveAck(f, fs, now, cfg)
    else if fs.fstype == CONNNAK then Fsa(f, GotConnNak, Some(fs), now, cfg)
    else Xmit(MarkReady(File(f, fs, now, cfg), fs), now, cfg)
  }

  /** Take the head off a readable input queue and put the connection at the end of the list if more is readable. */
  function Dequeue<K(==)>(f: Focus<K>): Focus<K>
    requires Q.Readable(f.e.inq)
  {
    var inq := f.e.inq;
    var rest := inq.(q := inq.q[1..], next := if Sequenced(inq.q[0]) then inq.next + 1 else inq.next);
    var more := Q.Readable(rest);
    var others := Remove(f.ipend, f.me);
    f.(ipend := if more then others + [f.me] else others,
       e := f.e.(inq := rest.(ready := more)))
  }

  /** Hand the head of a readable input queue to the client. */
  function ReadHead<K(==)>(f: Focus<K>, now: nat, cfg: Config): Focus<K>
    requires Q.Readable(f.e.inq)
  {
    var fs := f.e.inq.q[0];
    var f1 := Dequeue(f);
    var f2 := if fs.fstype == CONNSHUT then Fsa(f1, RcvShutdown, Some(fs), now, cfg) else f1;
    Xmit(f2, now, cfg)
  }
}
