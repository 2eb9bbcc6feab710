/** The retransmit timer of a process: it goes over every connection that waits for ACKs. */
module Timers {
  import opened FrameSets
  import opened FsProtocolSpec
  import opened FsProtocolInvariants
  import opened FsProtocolShutdown
  import opened Connection
  import opened Host
  import opened Neighbours
  import opened Retransmission
  import Q = FsQueueSpec

  /** A tick on one connection adds packets, and leaves an empty output queue of any connection empty. */
  lemma TickAdds<K(!new)>(h: Host<K>, j: K, now: nat, cfg: Config)
    requires HostOk(h, cfg) && j in h.elems && j in h.sents
    ensures var g := On(h, j, Tick, now, cfg);
            && HostOk(g, cfg) && g.elems.Keys == h.elems.Keys && h.wire <= g.wire
            && (forall k :: k in h.elems && k != j ==> g.elems[k] == h.elems[k])
            && (h.elems[j].outq.q == [] ==> g.elems[j].outq.q == [])
  {
    hide Good, Xmit, HostOk, OrderKept, OthersStay;
    OnKeeps(h, j, Tick, now, cfg);
    GoodAt(h, j, cfg);
    XmitKeeps(Of(h, j), now, cfg);
    XmitEffect(Of(h, j), now, cfg);
  }

  lemma {:induction false} TickListAdds<K(!new)>(h: Host<K>, list: seq<K>, now: nat, k: K, cfg: Config)
    requires HostOk(h, cfg) && Known(h) && (forall j :: j in list ==> j in h.elems) && k in h.elems
    ensures var g := TickList(h, list, now, cfg);
            && h.wire <= g.wire && k in g.elems
            && (h.elems[k].outq.q == [] ==> g.elems[k].outq.q == [])
    decreases |list|
  {
    hide HostOk, On;
    if list == [] {
    } else {
      TickAdds(h, list[0], now, cfg);
      OkKnown(On(h, list[0], Tick, now, cfg), cfg);
      TickListAdds(On(h, list[0], Tick, now, cfg), list[1..], now, k, cfg);
    }
  }

  /** What the timer does for a connection whose retransmission is due, on its own. */
  lemma TickRetransmits<K(!new)>(h: Host<K>, k: K, now: nat, cfg: Config)
    requires HostOk(h, cfg) && k in h.elems && k in h.sents && h.elems[k].outq.q != [] && Due(h.elems[k], now)
    ensures var g := On(h, k, Tick, now, cfg);
            && |g.wire| > |h.wire| && g.wire[|g.wire| - 1] == Packet(k, h.elems[k].outq.q[0])
            && (g.elems[k].outq.q == [] <==> now > h.elems[k].ackTimeout && GivesUpIn(h.elems[k].state))
  {
    hide Good, Xmit, HostOk, Sends;
    GoodAt(h, k, cfg);
    XmitKeeps(Of(h, k), now, cfg);
    DueRetransmits(Of(h, k), now, cfg);
    XmitEffect(Of(h, k), now, cfg);
  }

  /** The timer transmits the oldest frameset of every listed connection whose retransmission is due, wherever it
      stands in the list, and closes it if its ACK timeout has passed in a state that gives up. */
  lemma {:induction false} TimerRetransmits<K(!new)>(h: Host<K>, list: seq<K>, now: nat, k: K, cfg: Config)
    returns (i: nat)
    requires HostOk(h, cfg) && Known(h) && (forall j :: j in list ==> j in h.elems)
    requires k in list && h.elems[k].outq.q != [] && Due(h.elems[k], now)
    ensures var g := TickList(h, list, now, cfg);
            && |h.wire| <= i < |g.wire| && g.wire[i] == Packet(k, h.elems[k].outq.q[0])
            && k in g.elems
            && (now > h.elems[k].ackTimeout && GivesUpIn(h.elems[k].state) ==> g.elems[k].outq.q == [])
    decreases |list|
  {
    hide HostOk, On, Due, GivesUpIn;
    var h1 := On(h, list[0], Tick, now, cfg);
    TickAdds(h, list[0], now, cfg);
    OkKnown(h1, cfg);
    if list[0] == k {
      TickRetransmits(h, k, now, cfg);
      TickListAdds(h1, list[1..], now, k, cfg);
      i := |h1.wire| - 1;
    } else {
      i := TimerRetransmits(h1, list[1..], now, k, cfg);
    }
  }

  // ---------- Reading ----------

  lemma OnAdds<K(!new)>(h: Host<K>, j: K, op: Op, now: nat, cfg: Config)
    requires HostOk(h, cfg) && j in h.elems && j in h.sents && Enabled(Of(h, j), op)
    ensures h.wire <= On(h, j, op, now, cfg).wire
  {
    hide Good, Step, HostOk, OrderKept, OthersStay, Enabled;
    OnKeeps(h, j, op, now, cfg);
  }

  lemma {:induction false} ReadFromAdds<K(!new)>(h: Host<K>, list: seq<K>, now: nat, cfg: Config)
    requires HostOk(h, cfg) && Known(h) && forall j :: j in list ==> j in h.elems
    ensures h.wire <= ReadFrom(h, list, now, cfg).0.wire
    decreases |list|
  {
    hide HostOk, On, Q.Readable;
    if list == [] {
    } else if h.elems[list[0]].inq.q == [] {
      ReadFromAdds(h, list[1..], now, cfg);
    } else if Q.Readable(h.elems[list[0]].inq) {
      OnAdds(h, list[0], Read, now, cfg);
    } else {
      var h1 := On(h, list[0], Tick, now, cfg);
      TickAdds(h, list[0], now, cfg);
      OkKnown(h1, cfg);
      ReadFromAdds(h1, list[1..], now, cfg);
    }
  }

  /** A read also transmits on the connections that it passes over with input that cannot be handed out: if a
      retransmission is due there, the oldest frameset goes out. */
  lemma {:induction false} ReadRetransmits<K(!new)>(h: Host<K>, list: seq<K>, p: nat, now: nat, cfg: Config)
    returns (i: nat)
    requires HostOk(h, cfg) && Known(h) && (forall j :: j in list ==> j in h.elems) && p < |list|
    requires forall j :: 0 <= j <= p ==> !Q.Readable(h.elems[list[j]].inq)
    requires h.elems[list[p]].inq.q != [] && h.elems[list[p]].outq.q != [] && Due(h.elems[list[p]], now)
    requires list[p] !in list[..p]
    ensures var g := ReadFrom(h, list, now, cfg).0;
            |h.wire| <= i < |g.wire| && g.wire[i] == Packet(list[p], h.elems[list[p]].outq.q[0])
    decreases |list|
  {
    hide HostOk, On, Due, Q.Readable;
    var k := list[p];
    if p == 0 {
      var h1 := On(h, k, Tick, now, cfg);
      TickAdds(h, k, now, cfg);
      OkKnown(h1, cfg);
      TickRetransmits(h, k, now, cfg);
      ReadFromAdds(h1, list[1..], now, cfg);
      i := |h1.wire| - 1;
    } else if h.elems[list[0]].inq.q == [] {
      assert list[1..][p - 1] == k && list[1..][..p - 1] == list[1..p];
      i := ReadRetransmits(h, list[1..], p - 1, now, cfg);
    } else {
      var h1 := On(h, list[0], Tick, now, cfg);
      TickAdds(h, list[0], now, cfg);
      OkKnown(h1, cfg);
      GoodAt(h, list[0], cfg);
      assert list[..p][0] == list[0];
      assert list[1..][p - 1] == k && list[1..][..p - 1] == list[1..p];
      forall j | 0 <= j <= p - 1 ensures !Q.Readable(h1.elems[list[1..][j]].inq) {
        assert list[1..][j] == list[j + 1];
        TickLeavesOthers(h, list[0], list[j + 1], now, cfg);
      }
      i := ReadRetransmits(h1, list[1..], p - 1, now, cfg);
    }
  }
}
