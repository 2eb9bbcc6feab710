/** Two endpoints over a network that drops, duplicates and reorders: what the receiving client is handed. */
module Delivery {
  import opened FrameSets
  import opened FsProtocolSpec
  import opened FsProtocolInvariants
  import opened FsProtocolShutdown
  import opened Connection
  import opened ReadyMarks
  import opened Trails
  import Neighbours
  import Q = FsQueueSpec

  /** A frameset handed to the receiving client, and the id at which its receive epoch had started. */
  datatype Handed = Handed(start: nat, fs: FrameSet)

  /** Both ends of a connection, followed in the direction from snd to rcv, with the history of that direction.
      An epoch is a stretch in which the receiving queue stays in one session. */
  datatype Link<K> = Link(
    snd: Focus<K>,
    rcv: Focus<K>,
    past: seq<Packet<K>>,       // the packets of the receiving connection's earlier lives
    sndHeld: set<Seqno>,        // what the sending side's client has been handed
    rcvHeld: set<Seqno>,        // what the receiving side's client has been handed
    start: nat,                 // the id at which the current epoch started
    delivered: seq<FrameSet>,   // the sequenced framesets handed out in the current epoch
    handed: set<Handed>,        // everything ever handed out
    retired: set<nat>,          // the sessions of past epochs
    base: map<nat, int>)        // per session, the oldest unacknowledged id when snd was last in it

  datatype Side = Sender | Receiver

  datatype Move = Move(side: Side, op: Op, now: nat)

  /** The network: any packet the peer has ever sent may arrive, any number of times and in any order. Framesets
      that carry no sequence number may also come from elsewhere. */
  predicate FromNetwork<K(==)>(op: Op, peer: Focus<K>) {
    op.Arrive? ==> op.fs.fstype < MIN_SEQFRAMESET || Packet(peer.me, op.fs) in peer.wire
  }

  /** Packets from before the receiving connection was made anew may still be on their way. */
  predicate FromPast<K(==)>(op: Op, l: Link<K>) {
    op.Arrive? && Packet(l.rcv.me, op.fs) in l.past
  }

  predicate MoveOk<K(==)>(l: Link<K>, m: Move) {
    match m.side
    case Sender => Enabled(l.snd, m.op) && HonestOp(m.op, l.sndHeld) && (FromNetwork(m.op, l.rcv) || FromPast(m.op, l))
    case Receiver => Enabled(l.rcv, m.op) && HonestOp(m.op, l.rcvHeld) && FromNetwork(m.op, l.snd)
  }

  /** The sequenced frameset that this operation hands to the client, if any. */
  function HandedOut<K>(f: Focus<K>, op: Op): seq<FrameSet>
    requires Enabled(f, op)
  {
    if op.Read? && Sequenced(f.e.inq.q[0]) then [f.e.inq.q[0]] else []
  }

  function Apply<K(==)>(l: Link<K>, m: Move, cs: Config, cr: Config): Link<K>
    requires MoveOk(l, m)
  {
    match m.side
    case Sender =>
      var snd := Step(l.snd, m.op, m.now, cs);
      l.(snd := snd,
         sndHeld := HeldAfter(l.snd, m.op, l.sndHeld),
         base := l.base[snd.e.outq.session := snd.e.outq.next - |snd.e.outq.q|])
    case Receiver =>
      var rcv := Step(l.rcv, m.op, m.now, cr);
      var out := HandedOut(l.rcv, m.op);
      var same := rcv.e.inq.session == l.rcv.e.inq.session;
      l.(rcv := rcv,
         rcvHeld := HeldAfter(l.rcv, m.op, l.rcvHeld),
         handed := l.handed + (set x | x in out :: Handed(l.start, x)),
         start := if same then l.start else rcv.e.inq.next,
         delivered := if same then l.delivered + out else [],
         retired := if same then l.retired else l.retired + {l.rcv.e.inq.session})
  }

  // ---------- The invariant ----------

  /** x is the frameset that the sender enqueued under these ids. */
  ghost predicate IsSent(sent: seq<FrameSet>, x: FrameSet, session: nat, reqid: nat) {
    x in sent && Sequenced(x) && GetSeqno(x).value.session == session && GetSeqno(x).value.reqid == reqid
  }

  function SessionOf(x: FrameSet): nat
    requires Sequenced(x)
  {
    GetSeqno(x).value.session
  }

  ghost predicate QueuedIsSentByPeer(u: Q.Queue, sent: seq<FrameSet>) {
    forall i :: 0 <= i < |u.q| && Sequenced(u.q[i]) ==> u.q[i] in sent
  }

  /** The current epoch: exactly the framesets start, start + 1, ... of the session have been handed out. */
  ghost predicate EpochOk(u: Q.Queue, sent: seq<FrameSet>, start: nat, delivered: seq<FrameSet>) {
    u.session != 0 ==>
      && start >= 1 && u.next == start + |delivered|
      && forall i :: 0 <= i < |delivered| ==> IsSent(sent, delivered[i], u.session, start + i)
  }

  /** y is a frameset of d's session between d's epoch start and d itself. */
  predicate Covers(d: Handed, y: FrameSet) {
    && Sequenced(y) && Sequenced(d.fs) && SessionOf(y) == SessionOf(d.fs)
    && d.start <= Q.Height(y) <= Q.Height(d.fs)
  }

  /** Whatever was handed out in an epoch, so were all its predecessors back to the epoch's start. */
  ghost predicate HandedOk(handed: set<Handed>, sent: seq<FrameSet>) {
    && (forall d :: d in handed ==> d.fs in sent && Sequenced(d.fs) && d.start <= Q.Height(d.fs))
    && (forall d, y :: d in handed && y in sent && Covers(d, y) ==> Handed(d.start, y) in handed)
  }

  ghost predicate CurrentHanded(u: Q.Queue, start: nat, delivered: seq<FrameSet>, handed: set<Handed>) {
    u.session != 0 ==> forall i :: 0 <= i < |delivered| ==> Handed(start, delivered[i]) in handed
  }

  /** A handed-out frameset belongs to a past session or lies behind the current epoch's next id. */
  ghost predicate RetiredOk(u: Q.Queue, handed: set<Handed>, retired: set<nat>) {
    forall d :: d in handed && Sequenced(d.fs) ==>
      SessionOf(d.fs) in retired || (SessionOf(d.fs) == u.session && Q.Height(d.fs) < u.next)
  }

  /** Everything the client holds was handed out. */
  ghost predicate HeldHanded(held: set<Seqno>, handed: set<Handed>) {
    forall s :: s in held ==> exists d :: d in handed && GetSeqno(d.fs) == Some(s)
  }

  ghost predicate EndsOk<K>(l: Link<K>, cs: Config, cr: Config) {
    && Good(l.snd, cs) && Good(l.rcv, cr)
    && Trail(l.snd, l.sndHeld) && Trail(l.rcv, l.rcvHeld)
  }

  /** The ACKs among packets of earlier lives are for framesets the client was given. */
  ghost predicate PastOk<K>(past: seq<Packet<K>>, me: K, held: set<Seqno>) {
    forall p :: p in past && p.dest == me && p.fs.fstype == ACK ==> AcksOneOf(p.fs, held)
  }

  ghost predicate Inv<K>(l: Link<K>, cs: Config, cr: Config) {
    && EndsOk(l, cs, cr)
    && PastOk(l.past, l.rcv.me, l.rcvHeld)
    && QueuedIsSentByPeer(l.rcv.e.inq, l.snd.sent)
    && EpochOk(l.rcv.e.inq, l.snd.sent, l.start, l.delivered)
    && HandedOk(l.handed, l.snd.sent)
    && CurrentHanded(l.rcv.e.inq, l.start, l.delivered, l.handed)
    && RetiredOk(l.rcv.e.inq, l.handed, l.retired)
    && HeldHanded(l.rcvHeld, l.handed)
  }

  /** Two endpoints that have not talked yet. */
  function Idle<K>(toRcv: K, toSnd: K, qid: nat, cs: Config, cr: Config): Link<K> {
    Link(Focus(toRcv, FreshElem(cs.maxq, qid), [], [], [], []),
         Focus(toSnd, FreshElem(cr.maxq, qid), [], [], [], []),
         [], {}, {}, 0, [], {}, {}, map[])
  }

  lemma IdleInv<K>(toRcv: K, toSnd: K, qid: nat, cs: Config, cr: Config)
    requires Sane(cs) && Sane(cr)
    ensures Inv(Idle(toRcv, toSnd, qid, cs, cr), cs, cr)
  {
    hide Good, Trail;
    FreshGood(toRcv, [], [], [], qid, cs);
    FreshGood(toSnd, [], [], [], qid, cr);
    FreshTrail(toRcv, [], [], [], qid, cs);
    FreshTrail(toSnd, [], [], [], qid, cr);
  }

  // ---------- The sender's moves ----------

  lemma SentIsUnique(sent: seq<FrameSet>, x: FrameSet, y: FrameSet)
    requires Chained(sent) && x in sent && y in sent && Sequenced(x) && Sequenced(y)
    requires SessionOf(x) == SessionOf(y) && Q.Height(x) == Q.Height(y)
    ensures x == y
  {
    var i :| 0 <= i < |sent| && sent[i] == x;
    var j :| 0 <= j < |sent| && sent[j] == y;
    if i < j { NoIdReused(sent, i, j); }
    if j < i { NoIdReused(sent, j, i); }
  }

  /** What is enqueued later lies above everything enqueued before. */
  lemma LaterIsAbove(sent: seq<FrameSet>, more: seq<FrameSet>, x: FrameSet, y: FrameSet)
    requires Chained(more) && sent <= more && x in sent && y in more && y !in sent
    ensures Sequenced(x) && Sequenced(y) && Precedes(GetSeqno(x).value, GetSeqno(y).value)
  {
    var i :| 0 <= i < |sent| && sent[i] == x;
    var j :| 0 <= j < |more| && more[j] == y;
    NoIdReused(more, i, j);
  }

  lemma HandedGrows(handed: set<Handed>, sent: seq<FrameSet>, more: seq<FrameSet>)
    requires HandedOk(handed, sent) && Chained(more) && sent <= more
    ensures HandedOk(handed, more)
  {
    forall d, y | d in handed && y in more && Covers(d, y)
      ensures Handed(d.start, y) in handed
    {
      if y !in sent { LaterIsAbove(sent, more, d.fs, y); }
    }
  }

  lemma GoodChained<K>(f: Focus<K>, cfg: Config)
    requires Good(f, cfg)
    ensures Chained(f.sent) && Q.InOk(f.e.inq) && Q.OutOk(f.e.outq)
  {
  }

  lemma SenderKeeps<K>(l: Link<K>, m: Move, cs: Config, cr: Config)
    requires Inv(l, cs, cr) && MoveOk(l, m) && m.side == Sender
    ensures Inv(Apply(l, m, cs, cr), cs, cr)
  {
    hide Good, Trail, Step, HandedOk, RetiredOk, HeldHanded, CurrentHanded, Enabled, HeldAfter, Chained;
    StepKeepsGood(l.snd, m.op, m.now, cs);
    StepKeepsTrail(l.snd, m.op, m.now, cs, l.sndHeld);
    StepSent(l.snd, m.op, m.now, cs);
    var snd := Step(l.snd, m.op, m.now, cs);
    GoodChained(snd, cs);
    HandedGrows(l.handed, l.snd.sent, snd.sent);
  }

  // ---------- The receiver's moves ----------

  /** The input queue after an operation, before any close. */
  function Mid<K>(f: Focus<K>, op: Op): Q.Queue
    requires Enabled(f, op)
  {
    if op.Read? then
      var u := f.e.inq;
      var rest := u.(q := u.q[1..], next := if Sequenced(u.q[0]) then u.next + 1 else u.next);
      rest.(ready := Q.Readable(rest))
    else if op.Arrive? && op.fs.fstype != ACK && op.fs.fstype != CONNNAK then Filed(f.e.inq, op.fs)
    else f.e.inq
  }

  lemma StepMid<K>(f: Focus<K>, op: Op, now: nat, cfg: Config)
    requires Good(f, cfg) && Enabled(f, op)
    ensures Step(f, op, now, cfg).e.inq == Mid(f, op) || Step(f, op, now, cfg).e.inq == Emptied(Mid(f, op))
  {
    hide Good, Send1, Receive, ReadHead, AckSeqno, Xmit, Fsa, Filed, Emptied;
    match op
    case Send(fs) => Send1Inq(f, fs, now, cfg);
    case Arrive(fs) => ReceiveMid(f, fs, now, cfg);
    case Read => ReadHeadInq(f, now, cfg);
    case ClientAck(s) => AckSeqnoEffect(f, s);
    case Tick => XmitInq(f, now, cfg);
    case CloseRequest => FsaInq(f, ReqShutdown, None, now, cfg);
    case ShutTimer => FsaInq(f, ShutTimedOut, None, now, cfg);
  }

  lemma ReceiveMid<K>(f: Focus<K>, fs: FrameSet, now: nat, cfg: Config)
    requires Good(f, cfg) && Arrivable(fs)
    ensures var g := Receive(f, fs, now, cfg);
            g.e.inq == Mid(f, Arrive(fs)) || g.e.inq == Emptied(Mid(f, Arrive(fs)))
  {
    hide Good, ReceiveAck, Fsa, Emptied, Filed, File, Xmit;
    if fs.fstype == ACK {
      ReceiveAckInq(f, fs, now, cfg);
    } else if fs.fstype == CONNNAK {
      FsaInq(f, GotConnNak, Some(fs), now, cfg);
    } else {
      var g := ReceiveInq(f, fs, now, cfg);
      FiledIs(f, fs, now, cfg);
    }
  }

  /** Filing an arrival: either the session stays and so does the next id, or a new epoch begins. */
  lemma FiledSession(u: Q.Queue, fs: FrameSet)
    requires Q.InOk(u) && (Sequenced(fs) ==> GetSeqno(fs).value.session != 0)
    ensures var v := Filed(u, fs);
            && (v.session == u.session ==> v.next == u.next)
            && (v.session != u.session ==> v.session != 0 && v.next >= 1)
            && (v.session != u.session && u.session != 0 ==> v.session > u.session && v.next == 1)
            && (forall i :: 0 <= i < |v.q| ==> v.q[i] == fs || v.q[i] in u.q)
  {
    hide Q.InsertSorted;
    Q.InqSortedMembers(u, fs);
  }

  /** The receiving half of the invariant, on the input queue and the history. */
  ghost predicate Half(u: Q.Queue, sent: seq<FrameSet>, start: nat, delivered: seq<FrameSet>,
                       handed: set<Handed>, retired: set<nat>) {
    && QueuedIsSentByPeer(u, sent)
    && EpochOk(u, sent, start, delivered)
    && HandedOk(handed, sent)
    && CurrentHanded(u, start, delivered, handed)
    && RetiredOk(u, handed, retired)
  }

  /** A frameset handed out next extends the epoch without a gap. */
  lemma HandOutKeeps(u: Q.Queue, sent: seq<FrameSet>, start: nat, delivered: seq<FrameSet>, handed: set<Handed>,
          x: FrameSet)
    requires Chained(sent) && HandedOk(handed, sent) && EpochOk(u, sent, start, delivered)
    requires CurrentHanded(u, start, delivered, handed)
    requires u.session != 0 && IsSent(sent, x, u.session, u.next)
    ensures HandedOk(handed + {Handed(start, x)}, sent)
  {
    hide Chained, Compare;
    var more := handed + {Handed(start, x)};
    forall d, y | d in more && y in sent && Covers(d, y)
      ensures Handed(d.start, y) in more
    {
      if d == Handed(start, x) {
        if Q.Height(y) == u.next {
          SentIsUnique(sent, x, y);
        } else {
          var i := Q.Height(y) - start;
          assert IsSent(sent, delivered[i], u.session, start + i);
          SentIsUnique(sent, delivered[i], y);
        }
      }
    }
  }

  lemma ReadMidKeeps(u: Q.Queue, v: Q.Queue, sent: seq<FrameSet>, start: nat, delivered: seq<FrameSet>,
                     handed: set<Handed>, retired: set<nat>)
    requires Chained(sent) && Q.InOk(u) && Half(u, sent, start, delivered, handed, retired)
    requires Q.Readable(u)
    requires v == u.(q := u.q[1..], next := if Sequenced(u.q[0]) then u.next + 1 else u.next, ready := v.ready)
    ensures var out := if Sequenced(u.q[0]) then [u.q[0]] else [];
            Half(v, sent, start, delivered + out, handed + set x | x in out :: Handed(start, x), retired)
  {
    hide Chained, HandedOk;
    var x := u.q[0];
    if Sequenced(x) {
      assert IsSent(sent, x, u.session, u.next);
      HandOutKeeps(u, sent, start, delivered, handed, x);
      assert (set y | y in [x] :: Handed(start, y)) == {Handed(start, x)};
    } else {
      assert handed + (set y | y in [] :: Handed(start, y)) == handed;
      assert delivered + [] == delivered;
    }
  }

  lemma FiledMidKeeps(u: Q.Queue, v: Q.Queue, fs: FrameSet, sent: seq<FrameSet>, start: nat, delivered: seq<FrameSet>,
                      handed: set<Handed>, retired: set<nat>)
    requires Q.InOk(u) && Half(u, sent, start, delivered, handed, retired)
    requires v == Filed(u, fs) && (Sequenced(fs) ==> fs in sent && SessionOf(fs) != 0)
    ensures if v.session == u.session then Half(v, sent, start, delivered, handed, retired)
            else Half(v, sent, v.next, [], handed, retired + {u.session})
  {
    hide HandedOk, Filed;
    FiledSession(u, fs);
  }

  /** A close ends the epoch; everything handed out is then in a past session. */
  lemma EmptiedMidKeeps(u: Q.Queue, v: Q.Queue, sent: seq<FrameSet>, handed: set<Handed>, retired: set<nat>,
                        retired2: set<nat>, start2: nat, delivered2: seq<FrameSet>)
    requires HandedOk(handed, sent) && SentKinds(sent) && RetiredOk(u, handed, retired)
    requires retired <= retired2 && (u.session != 0 ==> u.session in retired2)
    ensures Half(Emptied(v), sent, start2, delivered2, handed, retired2)
  {
    forall d | d in handed && Sequenced(d.fs)
      ensures SessionOf(d.fs) in retired2
    {
      assert d.fs in sent;
    }
  }

  /** One operation of the receiver, on its input queue and the history. */
  lemma HistoryKeeps(l: Link, op: Op, r: Q.Queue)
    requires Enabled(l.rcv, op) && Chained(l.snd.sent) && SentKinds(l.snd.sent) && Q.InOk(l.rcv.e.inq)
    requires Half(l.rcv.e.inq, l.snd.sent, l.start, l.delivered, l.handed, l.retired)
    requires op.Arrive? && op.fs.fstype != ACK && op.fs.fstype != CONNNAK && Sequenced(op.fs) ==> op.fs in l.snd.sent
    requires r == Mid(l.rcv, op) || r == Emptied(Mid(l.rcv, op))
    ensures var out := HandedOut(l.rcv, op);
            var same := r.session == l.rcv.e.inq.session;
            Half(r, l.snd.sent, if same then l.start else r.next, if same then l.delivered + out else [],
                 l.handed + (set x | x in out :: Handed(l.start, x)),
                 if same then l.retired else l.retired + {l.rcv.e.inq.session})
  {
    hide Chained, Half, Q.InOk, Filed;
    var u := l.rcv.e.inq;
    var v := Mid(l.rcv, op);
    var out := HandedOut(l.rcv, op);
    var handed := l.handed + (set x | x in out :: Handed(l.start, x));
    if op.Read? {
      ReadMidKeeps(u, v, l.snd.sent, l.start, l.delivered, l.handed, l.retired);
      HalfParts(v, l.snd.sent, l.start, l.delivered + out, handed, l.retired);
    } else {
      assert l.handed + (set x | x in [] :: Handed(l.start, x)) == l.handed;
      assert l.delivered + [] == l.delivered;
      HalfParts(u, l.snd.sent, l.start, l.delivered, l.handed, l.retired);
      if op.Arrive? && op.fs.fstype != ACK && op.fs.fstype != CONNNAK {
        FiledMidKeeps(u, v, op.fs, l.snd.sent, l.start, l.delivered, l.handed, l.retired);
      }
    }
    if r == Emptied(v) {
      var same := r.session == u.session;
      EmptiedMidKeeps(if op.Read? then v else u, v, l.snd.sent, handed, l.retired,
                      if same then l.retired else l.retired + {u.session},
                      if same then l.start else r.next, if same then l.delivered + out else []);
    }
  }

  lemma HalfParts(u: Q.Queue, sent: seq<FrameSet>, start: nat, delivered: seq<FrameSet>, handed: set<Handed>,
          retired: set<nat>)
    requires Half(u, sent, start, delivered, handed, retired)
    ensures HandedOk(handed, sent) && RetiredOk(u, handed, retired)
  {
  }

  /** What the client holds after a read was handed to it. */
  lemma HeldKeeps(l: Link, op: Op)
    requires Enabled(l.rcv, op) && HeldHanded(l.rcvHeld, l.handed)
    ensures HeldHanded(HeldAfter(l.rcv, op, l.rcvHeld),
                       l.handed + (set x | x in HandedOut(l.rcv, op) :: Handed(l.start, x)))
  {
    hide Compare;
    var out := HandedOut(l.rcv, op);
    var more := l.handed + (set x | x in out :: Handed(l.start, x));
    forall s | s in HeldAfter(l.rcv, op, l.rcvHeld)
      ensures exists d :: d in more && GetSeqno(d.fs) == Some(s)
    {
      if s in l.rcvHeld {
        var d :| d in l.handed && GetSeqno(d.fs) == Some(s);
        assert d in more;
      } else {
        var x := l.rcv.e.inq.q[0];
        assert x in out;
        assert Handed(l.start, x) in more;
      }
    }
  }

  lemma ReceiverKeeps<K>(l: Link<K>, m: Move, cs: Config, cr: Config)
    requires Inv(l, cs, cr) && MoveOk(l, m) && m.side == Receiver
    ensures Inv(Apply(l, m, cs, cr), cs, cr)
  {
    hide Good, Trail, Step, HandedOk, RetiredOk, HeldHanded, CurrentHanded, EpochOk, QueuedIsSentByPeer, Enabled;
    hide HeldAfter, HandedOut;
    hide Chained, SentKinds;
    StepKeepsGood(l.rcv, m.op, m.now, cr);
    StepKeepsTrail(l.rcv, m.op, m.now, cr, l.rcvHeld);
    StepMid(l.rcv, m.op, m.now, cr);
    GoodChained(l.snd, cs);
    GoodChained(l.rcv, cr);
    TrailKinds(l.snd, l.sndHeld);
    if m.op.Arrive? && m.op.fs.fstype > ACK { ArrivedIsSent(l.snd, l.sndHeld, m.op.fs); }
    HistoryKeeps(l, m.op, Step(l.rcv, m.op, m.now, cr).e.inq);
    HeldKeeps(l, m.op);
    assert PastOk(l.past, l.rcv.me, HeldAfter(l.rcv, m.op, l.rcvHeld)) by { PastGrows(l, m.op); }
    assert Step(l.rcv, m.op, m.now, cr).me == l.rcv.me by { Neighbours.StepMe(l.rcv, m.op, m.now, cr); }
  }

  lemma PastGrows(l: Link, op: Op)
    requires Enabled(l.rcv, op) && PastOk(l.past, l.rcv.me, l.rcvHeld)
    ensures PastOk(l.past, l.rcv.me, HeldAfter(l.rcv, op, l.rcvHeld))
  {
  }

  lemma TrailKinds<K>(f: Focus<K>, held: set<Seqno>)
    requires Trail(f, held)
    ensures SentKinds(f.sent)
  {
  }

  /** A sequenced frameset from the network, other than an ACK, is one that the peer enqueued. */
  lemma ArrivedIsSent<K>(f: Focus<K>, held: set<Seqno>, fs: FrameSet)
    requires Trail(f, held)
    requires Packet(f.me, fs) in f.wire && fs.fstype != ACK
    ensures fs in f.sent
  {
  }

  // ---------- Other connections, and new lives ----------

  /** What other connections of a process may do to the lists and packets that it shares with this one. */
  ghost predicate Untouched<K>(f: Focus<K>, ipend: seq<K>, unacked: seq<K>, wire: seq<Packet<K>>) {
    && multiset(ipend)[f.me] == multiset(f.ipend)[f.me]
    && multiset(unacked)[f.me] == multiset(f.unacked)[f.me]
    && (forall p :: p in f.wire && p.dest == f.me ==> p in wire)
    && (forall p :: p in wire && p.dest == f.me ==> p in f.wire)
  }

  /** A move of one of the ends; work of other connections in the same process; or the receiving connection is
      destroyed at any time and made again. */
  datatype Turn<K> =
    | Own(m: Move)
    | Others(side: Side, ipend: seq<K>, unacked: seq<K>, wire: seq<Packet<K>>)
    | Renew(ipend: seq<K>, unacked: seq<K>, qid: nat)

  ghost predicate TurnOk<K>(l: Link<K>, t: Turn<K>) {
    match t
    case Own(m) => MoveOk(l, m)
    case Others(side, ipend, unacked, wire) => Untouched(End(l, side), ipend, unacked, wire)
    case Renew(ipend, unacked, _) => l.rcv.me !in ipend && l.rcv.me !in unacked
  }

  function End<K>(l: Link<K>, side: Side): Focus<K> {
    match side
    case Sender => l.snd
    case Receiver => l.rcv
  }

  function Shared<K>(f: Focus<K>, ipend: seq<K>, unacked: seq<K>, wire: seq<Packet<K>>): Focus<K> {
    f.(ipend := ipend, unacked := unacked, wire := wire)
  }

  ghost function Take<K>(l: Link<K>, t: Turn<K>, cs: Config, cr: Config): Link<K>
    requires TurnOk(l, t)
  {
    match t
    case Own(m) => Apply(l, m, cs, cr)
    case Others(Sender, ipend, unacked, wire) => l.(snd := Shared(l.snd, ipend, unacked, wire))
    case Others(Receiver, ipend, unacked, wire) => l.(rcv := Shared(l.rcv, ipend, unacked, wire))
    case Renew(ipend, unacked, qid) =>
      l.(rcv := Focus(l.rcv.me, FreshElem(cr.maxq, qid), ipend, unacked, [], []),
         past := l.past + l.rcv.wire,
         start := 1, delivered := [], retired := l.retired + {l.rcv.e.inq.session})
  }

  lemma SharedKeeps<K>(f: Focus<K>, ipend: seq<K>, unacked: seq<K>, wire: seq<Packet<K>>, cfg: Config, held: set<Seqno>)
    requires Good(f, cfg) && Trail(f, held) && Untouched(f, ipend, unacked, wire)
    ensures Good(Shared(f, ipend, unacked, wire), cfg) && Trail(Shared(f, ipend, unacked, wire), held)
  {
    hide Chained, SentOk, Q.OutOk, Q.InOk, WindowOk, Q.Readable, Q.FirstId, SentKinds, Precedes, Unsent;
  }

  lemma OthersKeep<K>(l: Link<K>, t: Turn<K>, cs: Config, cr: Config)
    requires Inv(l, cs, cr) && TurnOk(l, t) && t.Others?
    ensures Inv(Take(l, t, cs, cr), cs, cr)
  {
    hide Good, Trail, Untouched, HandedOk, RetiredOk, HeldHanded, CurrentHanded, EpochOk, QueuedIsSentByPeer;
    match t.side
    case Sender => SharedKeeps(l.snd, t.ipend, t.unacked, t.wire, cs, l.sndHeld);
    case Receiver => SharedKeeps(l.rcv, t.ipend, t.unacked, t.wire, cr, l.rcvHeld);
  }

  lemma RenewKeeps<K>(l: Link<K>, t: Turn<K>, cs: Config, cr: Config)
    requires Inv(l, cs, cr) && TurnOk(l, t) && t.Renew?
    ensures Inv(Take(l, t, cs, cr), cs, cr)
  {
    hide Good, Trail, HandedOk, HeldHanded;
    var r := Take(l, t, cs, cr);
    assert Sane(cr) by { GoodSane(l.rcv, cr); }
    FreshGood(l.rcv.me, t.ipend, t.unacked, [], t.qid, cr);
    FreshTrail(l.rcv.me, t.ipend, t.unacked, [], t.qid, cr);
    TrailGrows(r.rcv, {}, l.rcvHeld);
    WireToPast(l.rcv, l.rcvHeld, l.past);
  }

  lemma GoodSane<K>(f: Focus<K>, cfg: Config)
    requires Good(f, cfg)
    ensures Sane(cfg)
  {
  }

  lemma WireToPast<K>(f: Focus<K>, held: set<Seqno>, past: seq<Packet<K>>)
    requires Trail(f, held) && PastOk(past, f.me, held)
    ensures PastOk(past + f.wire, f.me, held)
  {
  }

  lemma TurnKeeps<K>(l: Link<K>, t: Turn<K>, cs: Config, cr: Config)
    requires Inv(l, cs, cr) && TurnOk(l, t)
    ensures Inv(Take(l, t, cs, cr), cs, cr)
  {
    hide Inv, MoveOk, Untouched, Apply;
    match t
    case Own(m) =>
      if m.side == Sender {
        SenderKeeps(l, m, cs, cr);
      } else {
        ReceiverKeeps(l, m, cs, cr);
      }
    case Others(_, _, _, _) => OthersKeep(l, t, cs, cr);
    case Renew(_, _, _) => RenewKeeps(l, t, cs, cr);
  }

  // ---------- Runs ----------

  ghost predicate TurnsOk<K>(l: Link<K>, turns: seq<Turn<K>>, cs: Config, cr: Config)
    decreases |turns|
  {
    turns != [] ==> TurnOk(l, turns[0]) && TurnsOk(Take(l, turns[0], cs, cr), turns[1..], cs, cr)
  }

  ghost function Run<K>(l: Link<K>, turns: seq<Turn<K>>, cs: Config, cr: Config): Link<K>
    requires TurnsOk(l, turns, cs, cr)
    decreases |turns|
  {
    if turns == [] then l else Run(Take(l, turns[0], cs, cr), turns[1..], cs, cr)
  }

  lemma {:induction false} RunKeepsInv<K>(l: Link<K>, turns: seq<Turn<K>>, cs: Config, cr: Config)
    requires Inv(l, cs, cr) && TurnsOk(l, turns, cs, cr)
    ensures Inv(Run(l, turns, cs, cr), cs, cr)
    decreases |turns|
  {
    hide Inv, Take, TurnOk;
    if turns == [] {
    } else {
      TurnKeeps(l, turns[0], cs, cr);
      RunKeepsInv(Take(l, turns[0], cs, cr), turns[1..], cs, cr);
    }
  }

  // ---------- The theorems ----------

  /** Framesets with consecutive ids in one session stand next to each other in what was enqueued. */
  lemma {:induction false} ConsecutiveIsSlice(sent: seq<FrameSet>, d: seq<FrameSet>, session: nat, start: nat, n: nat)
    returns (k: nat)
    requires Chained(sent) && 0 < n <= |d|
    requires forall i :: 0 <= i < |d| ==> IsSent(sent, d[i], session, start + i)
    ensures k + n <= |sent| && d[..n] == sent[k..k + n]
  {
    hide Compare, Precedes;
    if n == 1 {
      assert IsSent(sent, d[0], session, start);
      k :| 0 <= k < |sent| && sent[k] == d[0];
    } else {
      k := ConsecutiveIsSlice(sent, d, session, start, n - 1);
      assert sent[k + n - 2] == d[..n - 1][n - 2];
      assert IsSent(sent, d[n - 1], session, start + n - 1);
      assert IsSent(sent, d[n - 2], session, start + n - 2);
      NextIsAdjacent(sent, k + n - 2, d[n - 1]);
      assert d[..n] == d[..n - 1] + [d[n - 1]];
      assert sent[k..k + n] == sent[k..k + n - 1] + [sent[k + n - 1]];
    }
  }

  lemma NextIsAdjacent(sent: seq<FrameSet>, p: nat, y: FrameSet)
    requires Chained(sent) && p < |sent| && Sequenced(y) && y in sent
    requires SessionOf(y) == SessionOf(sent[p]) && Q.Height(y) == Q.Height(sent[p]) + 1
    ensures p + 1 < |sent| && sent[p + 1] == y
  {
    var m :| 0 <= m < |sent| && sent[m] == y;
    if m < p { NoIdReused(sent, m, p); }
    if p + 1 < m {
      assert Follows(sent[p], sent[p + 1]);
      NoIdReused(sent, p + 1, m);
    }
  }

  /** d is what stands in sent from position k on, beginning with this session and request id. */
  ghost predicate StretchAt(sent: seq<FrameSet>, k: nat, d: seq<FrameSet>, session: nat, reqid: nat) {
    && k + |d| <= |sent|
    && d == sent[k..k + |d|]
    && (d != [] ==> Sequenced(d[0]) && SessionOf(d[0]) == session && Q.Height(d[0]) == reqid)
  }

  lemma EpochIsStretch(u: Q.Queue, sent: seq<FrameSet>, start: nat, delivered: seq<FrameSet>) returns (k: nat)
    requires Chained(sent) && EpochOk(u, sent, start, delivered) && u.session != 0
    ensures StretchAt(sent, k, delivered, u.session, start)
  {
    hide Chained;
    k := 0;
    if delivered != [] {
      k := ConsecutiveIsSlice(sent, delivered, u.session, start, |delivered|);
      assert delivered[..|delivered|] == delivered;
      assert IsSent(sent, delivered[0], u.session, start + 0);
    }
  }

  /** In every run, the sequenced framesets that read has handed out in the current receive epoch, together with the one
      that the next read will hand out (also if that read closes the connection and so ends the epoch), are a contiguous
      stretch of what the peer enqueued, in order: none missing, none twice. It starts at the epoch's first id. */
  lemma DeliveredInOrder<K>(l: Link<K>, turns: seq<Turn<K>>, cs: Config, cr: Config) returns (k: nat)
    requires Inv(l, cs, cr) && TurnsOk(l, turns, cs, cr)
    requires Run(l, turns, cs, cr).rcv.e.inq.session != 0
    ensures var r := Run(l, turns, cs, cr);
            && StretchAt(r.snd.sent, k, r.delivered, r.rcv.e.inq.session, r.start)
            && r.rcv.e.inq.next == r.start + |r.delivered|
            && (Enabled(r.rcv, Read) ==>
                  StretchAt(r.snd.sent, k, r.delivered + HandedOut(r.rcv, Read), r.rcv.e.inq.session, r.start))
  {
    hide Good, Trail, HandedOk, RetiredOk, HeldHanded, CurrentHanded, Chained, StretchAt, Mid;
    RunKeepsInv(l, turns, cs, cr);
    var r := Run(l, turns, cs, cr);
    var u := r.rcv.e.inq;
    GoodChained(r.snd, cs);
    GoodChained(r.rcv, cr);
    if Enabled(r.rcv, Read) {
      NextExtends(u, r.snd.sent, r.start, r.delivered, HandedOut(r.rcv, Read));
      var out := HandedOut(r.rcv, Read);
      k := EpochIsStretch(u.(next := u.next + |out|), r.snd.sent, r.start, r.delivered + out);
      StretchPrefix(r.snd.sent, k, r.delivered, HandedOut(r.rcv, Read), u.session, r.start);
    } else {
      k := EpochIsStretch(u, r.snd.sent, r.start, r.delivered);
    }
  }

  lemma NextExtends(u: Q.Queue, sent: seq<FrameSet>, start: nat, delivered: seq<FrameSet>, out: seq<FrameSet>)
    requires QueuedIsSentByPeer(u, sent) && EpochOk(u, sent, start, delivered) && Q.InOk(u) && Q.Readable(u)
    requires out == if Sequenced(u.q[0]) then [u.q[0]] else []
    ensures EpochOk(u.(next := u.next + |out|), sent, start, delivered + out)
  {
    if Sequenced(u.q[0]) { assert IsSent(sent, u.q[0], u.session, u.next); }
  }

  lemma StretchPrefix(sent: seq<FrameSet>, k: nat, d: seq<FrameSet>, more: seq<FrameSet>, session: nat, reqid: nat)
    requires StretchAt(sent, k, d + more, session, reqid)
    ensures StretchAt(sent, k, d, session, reqid)
  {
    assert d == (d + more)[..|d|];
    assert d != [] ==> (d + more)[0] == d[0];
  }

  /** Where an epoch starts: at 1 after a move to a higher session, at the id adopted when there was no session. */
  lemma EpochStart<K>(l: Link<K>, m: Move, cs: Config, cr: Config)
    requires Inv(l, cs, cr) && MoveOk(l, m) && m.side == Receiver
    ensures var r := Apply(l, m, cs, cr);
            var was, now := l.rcv.e.inq.session, r.rcv.e.inq.session;
            && (now == was ==> r.start == l.start && r.delivered == l.delivered + HandedOut(l.rcv, m.op))
            && (now != was && now != 0 ==>
                  && m.op.Arrive? && Sequenced(m.op.fs) && GetSeqno(m.op.fs).value.session == now && r.delivered == []
                  && if was != 0 then now > was && r.start == 1
                     else r.start == if GetSeqno(m.op.fs).value.reqid >= 2 then GetSeqno(m.op.fs).value.reqid else 1)
  {
    hide Good, Trail, Step, HandedOk, RetiredOk, HeldHanded, CurrentHanded, EpochOk, QueuedIsSentByPeer, HandedOut;
    hide Q.InsertSorted;
    GoodChained(l.rcv, cr);
    StepMid(l.rcv, m.op, m.now, cr);
    if m.op.Arrive? { Q.InqSortedMembers(l.rcv.e.inq, m.op.fs); }
  }

  /** If clients acknowledge only what they were given, every frameset that an ACK removes from the sender's queue
      had been handed to the receiving client, save those below the start of the epoch in which the acknowledged
      one was handed out. This covers ACKs repeated for duplicates. */
  lemma AckRemovesOnlyDelivered<K>(l: Link<K>, turns: seq<Turn<K>>, ack: FrameSet, cs: Config, cr: Config)
    returns (start: nat)
    requires Inv(l, cs, cr) && TurnsOk(l, turns, cs, cr)
    requires var r := Run(l, turns, cs, cr);
             ack.fstype == ACK && Packet(r.rcv.me, ack) in r.rcv.wire + r.past
    ensures var r := Run(l, turns, cs, cr);
            && Sequenced(ack)
            && start <= GetSeqno(ack).value.reqid
            && (exists d :: d in r.handed && d.start == start && GetSeqno(d.fs) == GetSeqno(ack))
            && var left := Q.AckThrough(r.snd.e.outq, GetSeqno(ack).value).0;
               forall x :: x in r.snd.e.outq.q && x !in left.q && Q.Height(x) >= start ==> Handed(start, x) in r.handed
  {
    hide Good, RetiredOk, CurrentHanded, QueuedIsSentByPeer, EpochOk, Chained, Q.AckThrough, SentKinds;
    RunKeepsInv(l, turns, cs, cr);
    var r := Run(l, turns, cs, cr);
    AckIsHeld(r, ack);
    var s := GetSeqno(ack).value;
    var d :| d in r.handed && GetSeqno(d.fs) == Some(s);
    start := d.start;
    GoodChained(r.snd, cs);
    Q.AckThroughOut(r.snd.e.outq, s);
    var u := r.snd.e.outq;
    var left := Q.AckThrough(u, s).0;
    forall x | x in u.q && x !in left.q && Q.Height(x) >= start
      ensures Handed(start, x) in r.handed
    {
      var i :| 0 <= i < |u.q| && u.q[i] == x;
      RemovedByAck(u, s, i);
      QueuedIsSent(r.snd, cs, i);
      assert Covers(d, x);
    }
  }

  /** A frameset that an ACK removes is in the ACK's session and not above its id. */
  lemma RemovedByAck(u: Q.Queue, s: Seqno, i: nat)
    requires Q.OutOk(u) && i < |u.q| && u.q[i] !in Q.AckThrough(u, s).0.q
    ensures Sequenced(u.q[i]) && SessionOf(u.q[i]) == s.session && Q.Height(u.q[i]) <= s.reqid
  {
    hide Q.AckThrough;
    Q.AckThroughOut(u, s);
    var (v, count) := Q.AckThrough(u, s);
    assert forall j :: 0 <= count <= j < |u.q| ==> u.q[j] == v.q[j - count];
  }

  /** Every ACK that the receiving side has ever sent is for something that its client was given. */
  lemma AckIsHeld<K>(l: Link<K>, ack: FrameSet)
    requires Trail(l.rcv, l.rcvHeld) && PastOk(l.past, l.rcv.me, l.rcvHeld)
    requires ack.fstype == ACK && Packet(l.rcv.me, ack) in l.rcv.wire + l.past
    ensures Sequenced(ack) && GetSeqno(ack).value in l.rcvHeld
  {
  }
}
