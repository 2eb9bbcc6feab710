/** What an operation on one connection does to the places of the others in the shared lists. */
module Neighbours {
  import opened FrameSets
  import opened FsProtocolSpec
  import opened FsProtocolInvariants
  import opened FsProtocolShutdown
  import opened Connection
  import Q = FsQueueSpec

  /** The entries in front of k. */
  function Ahead<K(==)>(list: seq<K>, k: K): set<K> {
    if list == [] || list[0] == k then {} else {list[0]} + Ahead(list[1..], k)
  }

  /** Every entry but i occurs as often as before. */
  predicate OthersStay<K(==)>(a: seq<K>, b: seq<K>, i: K) {
    multiset(a)[i := 0] == multiset(b)[i := 0]
  }

  /** Entry i may have left or have gone to the end; the others keep their order. */
  ghost predicate OrderKept<K>(a: seq<K>, b: seq<K>, i: K) {
    && OthersStay(a, b, i)
    && forall k :: k in a && k != i ==>
         Ahead(b, k) - {i} == Ahead(a, k) - {i} && (i in Ahead(b, k) ==> i in Ahead(a, k))
  }

  ghost predicate Apart<K>(f: Focus<K>, g: Focus<K>) {
    && g.me == f.me
    && OrderKept(f.ipend, g.ipend, f.me) && OthersStay(f.unacked, g.unacked, f.me)
    && Sends(f, g)
  }

  // ---------- Lists ----------

  lemma OrderKeptThen<K>(a: seq<K>, b: seq<K>, c: seq<K>, i: K)
    requires OrderKept(a, b, i) && OrderKept(b, c, i)
    ensures OrderKept(a, c, i)
  {
    forall k | k in a && k != i
      ensures Ahead(c, k) - {i} == Ahead(a, k) - {i} && (i in Ahead(c, k) ==> i in Ahead(a, k))
    {
      assert multiset(a)[i := 0][k] == multiset(b)[i := 0][k];
      assert k in b;
    }
  }

  lemma {:induction false} AheadRemove<K>(list: seq<K>, i: K, k: K)
    requires k != i
    ensures Ahead(Remove(list, i), k) <= Ahead(list, k) <= Ahead(Remove(list, i), k) + {i}
    ensures multiset(list)[i] <= 1 ==> i !in Ahead(Remove(list, i), k)
  {
    if list == [] {
    } else {
      assert list == [list[0]] + list[1..];
      if list[0] == i {
        if multiset(list)[i] <= 1 { AheadMembers(list[1..], k); }
        if k in Ahead(list[1..], k) { AheadMembers(list[1..], k); }
      } else {
        AheadRemove(list[1..], i, k);
      }
    }
  }

  lemma {:induction false} AheadMembers<K>(list: seq<K>, k: K)
    ensures forall x :: x in Ahead(list, k) ==> x in list && x != k
  {
    if list == [] {
    } else {
      AheadMembers(list[1..], k);
    }
  }

  lemma {:induction false} AheadAppend<K>(list: seq<K>, more: seq<K>, k: K)
    requires k in list
    ensures Ahead(list + more, k) == Ahead(list, k)
  {
    assert (list + more)[0] == list[0];
    if list[0] == k {
    } else {
      assert (list + more)[1..] == list[1..] + more;
      AheadAppend(list[1..], more, k);
    }
  }

  lemma RemoveOrder<K>(list: seq<K>, i: K)
    ensures OrderKept(list, Remove(list, i), i)
  {
    hide Ahead, Remove;
    RemoveOne(list, i);
    forall k | k in list && k != i
      ensures Ahead(Remove(list, i), k) - {i} == Ahead(list, k) - {i}
      ensures i in Ahead(Remove(list, i), k) ==> i in Ahead(list, k)
    {
      AheadRemove(list, i, k);
    }
  }

  lemma AppendOrder<K>(list: seq<K>, i: K)
    ensures OrderKept(list, list + [i], i)
  {
    hide Ahead;
    forall k | k in list && k != i ensures Ahead(list + [i], k) == Ahead(list, k) {
      AheadAppend(list, [i], k);
    }
  }

  // ---------- Operations ----------

  lemma ApartThen<K>(f: Focus<K>, g: Focus<K>, h: Focus<K>)
    requires Apart(f, g) && Apart(g, h)
    ensures Apart(f, h)
  {
    hide OrderKept, Sends;
    OrderKeptThen(f.ipend, g.ipend, h.ipend, f.me);
    SendsThen(f, g, h);
  }

  lemma SendsThen<K>(f: Focus<K>, g: Focus<K>, h: Focus<K>)
    requires g.me == f.me && Sends(f, g) && Sends(g, h)
    ensures Sends(f, h)
  {
  }

  lemma SameListsApart<K>(f: Focus<K>, g: Focus<K>)
    requires g.me == f.me && g.ipend == f.ipend && g.unacked == f.unacked && Sends(f, g)
    ensures Apart(f, g)
  {
    hide Sends;
  }

  lemma ReinitApart<K>(f: Focus<K>)
    ensures Apart(f, Reinit(f))
  {
    hide OrderKept, Remove;
    RemoveOrder(f.ipend, f.me);
    RemoveOne(f.unacked, f.me);
    SameListsApart(f, f);
  }

  lemma SettleApart<K>(f: Focus<K>, act: Actions, next: State)
    ensures Apart(f, Settle(f, act, next))
  {
    hide Apart, Reinit;
    var f1 := f.(e := f.e.(shutTimer := if act.noTime then false else (f.e.shutTimer || act.timer)));
    var f2 := if act.close then Reinit(f1) else f1;
    SameListsApart(f, f1);
    ReinitApart(f1);
    if act.close { ApartThen(f, f1, f2); }
    SameListsApart(f2, Settle(f, act, next));
    ApartThen(f, f2, Settle(f, act, next));
  }

  lemma RexmitApart<K>(f: Focus<K>, now: nat, cfg: Config)
    ensures Apart(f, Rexmit(f, now, cfg))
  {
    hide Apart, Settle, Send1, AckMe, NextState, ActionsFor;
    if f.e.outq.q != [] {
      var g := Transmit(f.(e := f.e.(nextRexmit := now + cfg.rexmit)), f.e.outq.q[0]);
      AckTimedOutTable(g.e.state);
      SameListsApart(f, g);
      var h := Fsa(g, AckTimedOut, None, now, cfg);
      SettleApart(g, ActionsFor(g.e.state, AckTimedOut), NextState(g.e.state, AckTimedOut));
      SameListsApart(h, h.(e := h.e.(ackTimeout := now + cfg.ackTimeout)));
      ApartThen(f, g, h);
      ApartThen(f, h, h.(e := h.e.(ackTimeout := now + cfg.ackTimeout)));
    } else {
      SameListsApart(f, Rexmit(f, now, cfg));
    }
  }

  lemma XmitApart<K>(f: Focus<K>, now: nat, cfg: Config)
    requires Good(f, cfg)
    ensures Apart(f, Xmit(f, now, cfg))
  {
    hide Good, Apart, Rexmit, SendNew;
    var f1 := if |f.e.outq.q| < cfg.window then SendNew(f, 0) else f;
    if |f.e.outq.q| < cfg.window { SendNewQuiet(f, 0); }
    RexmitEffect(f1, now, cfg);
    RexmitApart(f1, now, cfg);
    SameListsApart(f, f1);
    ApartThen(f, f1, Rexmit(f1, now, cfg));
    SameListsApart(f, f1.(e := f1.e.(nextRexmit := now + cfg.rexmit)));
  }

  lemma AppendApart<K>(f: Focus<K>, fs: FrameSet, now: nat, cfg: Config)
    ensures Apart(f, Append(f, fs, now, cfg).0)
  {
    hide OrderKept, Q.Enq;
    assert multiset([f.me] + f.unacked) == multiset{f.me} + multiset(f.unacked);
    SameListsApart(f, f);
  }

  lemma Send1Apart<K>(f: Focus<K>, fs: FrameSet, now: nat, cfg: Config)
    requires Good(f, cfg) && Sendable(fs)
    ensures Apart(f, Send1(f, fs, now, cfg).0)
  {
    hide Good, Xmit, Send1, Apart, Append;
    if InShutdown(f.e.state) {
      Send1Refuses(f, fs, now, cfg);
      SameListsApart(f, f);
    } else {
      var f1, f2 := Send1Unfolds(f, fs, now, cfg);
      StateKeepsGood(f, f1.e.state, cfg);
      AppendKeeps(f1, fs, now, cfg);
      SameListsApart(f, f1);
      AppendApart(f1, fs, now, cfg);
      XmitApart(f2, now, cfg);
      ApartThen(f, f1, f2);
      ApartThen(f, f2, Xmit(f2, now, cfg));
    }
  }

  lemma FsaApart<K>(f: Focus<K>, input: Input, fs: Option<FrameSet>, now: nat, cfg: Config)
    requires Good(f, cfg)
    ensures Apart(f, Fsa(f, input, fs, now, cfg))
  {
    hide Good, Send1, AckMe, NextState, ActionsFor, Settle, Apart;
    var act := ActionsFor(f.e.state, input);
    var f1 := if act.ackMe then AckMe(f, fs) else f;
    AckMeKeeps(f, fs, cfg);
    AckMeEffect(f, fs);
    SameListsApart(f, f1);
    Send1Apart(f1, ShutFrameSet(), now, cfg);
    var f2 := if act.sndShut then Send1(f1, ShutFrameSet(), now, cfg).0 else f1;
    if act.sndShut { ApartThen(f, f1, f2); }
    SettleApart(f2, act, NextState(f.e.state, input));
    ApartThen(f, f2, Settle(f2, act, NextState(f.e.state, input)));
  }

  lemma AckedApart<K>(f: Focus<K>, s: Seqno, now: nat, cfg: Config)
    ensures Apart(f, Acked(f, s, now, cfg))
  {
    hide OrderKept, Remove, Q.AckThrough;
    RemoveOne(f.unacked, f.me);
    SameListsApart(f, f);
  }

  lemma ReceiveAckApart<K>(f: Focus<K>, fs: FrameSet, now: nat, cfg: Config)
    requires Good(f, cfg)
    ensures Apart(f, ReceiveAck(f, fs, now, cfg))
  {
    hide Good, Apart, Xmit, Fsa, Q.AckThrough;
    if Sequenced(fs) {
      var s := GetSeqno(fs).value;
      var g := Acked(f, s, now, cfg);
      AckedKeeps(f, s, now, cfg);
      AckedApart(f, s, now, cfg);
      XmitApart(g, now, cfg);
      XmitKeeps(g, now, cfg);
      var h := Xmit(g, now, cfg);
      ApartThen(f, g, h);
      var h0 := h.(e := h.e.(ackTimeout := 0));
      SameListsApart(h, h0);
      ApartThen(f, h, h0);
      AckTimeoutKeeps(h, 0, cfg);
      FsaApart(h0, OutAllDone, Some(fs), now, cfg);
      ApartThen(f, h0, Fsa(h0, OutAllDone, Some(fs), now, cfg));
    } else {
      SameListsApart(f, f);
    }
  }

  lemma MarkReadyApart<K>(f: Focus<K>, fs: FrameSet)
    ensures Apart(f, MarkReady(f, fs))
  {
    hide OrderKept;
    AppendOrder(f.ipend, f.me);
    SameListsApart(f, f);
  }

  lemma ReceiveApart<K>(f: Focus<K>, fs: FrameSet, now: nat, cfg: Config)
    requires Good(f, cfg) && Arrivable(fs)
    ensures Apart(f, Receive(f, fs, now, cfg))
  {
    hide Good, AlmostGood, MarkDue, Apart, Xmit, Fsa, File, MarkReady, ReceiveAck;
    if fs.fstype == ACK {
      ReceiveAckApart(f, fs, now, cfg);
    } else if fs.fstype == CONNNAK {
      FsaApart(f, GotConnNak, Some(fs), now, cfg);
    } else {
      var f1 := File(f, fs, now, cfg);
      FileKeeps(f, fs, now, cfg);
      FileShape(f, fs, now, cfg);
      SameListsApart(f, f1);
      MarkReadyKeeps(f1, fs, cfg);
      MarkReadyApart(f1, fs);
      ApartThen(f, f1, MarkReady(f1, fs));
      XmitApart(MarkReady(f1, fs), now, cfg);
      ApartThen(f, MarkReady(f1, fs), Receive(f, fs, now, cfg));
    }
  }

  lemma DequeueApart<K>(f: Focus<K>)
    requires Q.Readable(f.e.inq)
    ensures Apart(f, Dequeue(f))
  {
    hide OrderKept, Remove, Q.Readable;
    RemoveOrder(f.ipend, f.me);
    var others := Remove(f.ipend, f.me);
    AppendOrder(others, f.me);
    OrderKeptThen(f.ipend, others, others + [f.me], f.me);
    SameListsApart(f, f);
  }

  lemma ReadTailApart<K>(f: Focus<K>, now: nat, cfg: Config)
    requires Good(f, cfg) && Q.Readable(f.e.inq)
    ensures Apart(Dequeue(f), ReadHead(f, now, cfg))
  {
    hide Good, Apart, Xmit, Fsa, Dequeue;
    var fs := f.e.inq.q[0];
    var f1 := Dequeue(f);
    DequeueKeeps(f, cfg);
    FsaKeeps(f1, RcvShutdown, Some(fs), now, cfg);
    FsaApart(f1, RcvShutdown, Some(fs), now, cfg);
    SameListsApart(f1, f1);
    var f2 := if fs.fstype == CONNSHUT then Fsa(f1, RcvShutdown, Some(fs), now, cfg) else f1;
    XmitApart(f2, now, cfg);
    ApartThen(f1, f2, Xmit(f2, now, cfg));
  }

  lemma ReadHeadApart<K>(f: Focus<K>, now: nat, cfg: Config)
    requires Good(f, cfg) && Q.Readable(f.e.inq)
    ensures Apart(f, ReadHead(f, now, cfg))
  {
    hide Good, Apart, ReadHead, Dequeue;
    DequeueApart(f);
    ReadTailApart(f, now, cfg);
    ApartThen(f, Dequeue(f), ReadHead(f, now, cfg));
  }

  /** No operation on a connection disturbs the others: they stay listed as often as they were, and in their order. */
  lemma StepApart<K>(f: Focus<K>, op: Op, now: nat, cfg: Config)
    requires Good(f, cfg) && Enabled(f, op)
    ensures Apart(f, Step(f, op, now, cfg))
  {
    hide Good, Send1, Receive, ReadHead, AckSeqno, Xmit, Fsa, Apart;
    match op
    case Send(fs) => Send1Apart(f, fs, now, cfg);
    case Arrive(fs) => ReceiveApart(f, fs, now, cfg);
    case Read => ReadHeadApart(f, now, cfg);
    case ClientAck(s) => AckSeqnoEffect(f, s); SameListsApart(f, AckSeqno(f, s));
    case Tick => XmitApart(f, now, cfg);
    case CloseRequest => FsaApart(f, ReqShutdown, None, now, cfg);
    case ShutTimer => FsaApart(f, ShutTimedOut, None, now, cfg);
  }

  lemma StepMe<K>(f: Focus<K>, op: Op, now: nat, cfg: Config)
    requires Good(f, cfg) && Enabled(f, op)
    ensures Step(f, op, now, cfg).me == f.me
  {
    hide Good, Step, Enabled, OrderKept, OthersStay, Sends;
    StepApart(f, op, now, cfg);
  }
}
