/** The FsProtocol and FsProtoElem classes: connections that are updated in place, against the functions on values. */
module FsProtocols {
  import opened FrameSets
  import opened FsQueues
  import opened FsProtocolSpec
  import opened Connection
  import opened Host
  import Q = FsQueueSpec

  class FsProtoElem<K(==)> {
    const endpoint: K
    const outq: FsQueue
    const inq: FsQueue
    var lastacksent: Option<Seqno>
    var lastseqsent: Option<Seqno>
    var nextrexmit: nat
    var acktimeout: nat
    var state: State
    var shuttimer: bool
    var finalizetimer: bool
    var shutdown_complete: bool
    ghost var sent: seq<FrameSet>   // everything the output queue has accepted

    function View(): Elem
      reads this, outq, inq
    {
      Elem(outq.View(), inq.View(), lastacksent, lastseqsent, nextrexmit, acktimeout, state,
           shuttimer, finalizetimer, shutdown_complete)
    }

    constructor (endpoint: K, maxq: nat, qid: nat)
      ensures this.endpoint == endpoint && View() == FreshElem(maxq, qid) && sent == []
      ensures fresh(outq) && fresh(inq) && inq != outq
    {
      this.endpoint := endpoint;
      outq := new FsQueue(maxq, qid);
      inq := new FsQueue(maxq, qid);
      lastacksent, lastseqsent := None, None;
      nextrexmit, acktimeout := 0, 0;
      state := NONE;
      shuttimer, finalizetimer, shutdown_complete := false, false, false;
      sent := [];
    }
  }

  lemma OnIs<K>(h: Host<K>, k: K, now: nat, cfg: Config)
    requires k in h.elems && k in h.sents
    ensures On(h, k, Tick, now, cfg) == Put(h, Xmit(Of(h, k), now, cfg))
    ensures Q.Readable(h.elems[k].inq) ==> On(h, k, Read, now, cfg) == Put(h, ReadHead(Of(h, k), now, cfg))
  {
    hide Xmit, ReadHead;
  }

  /** One turn of the read loop. */
  lemma ReadFromAt<K>(h: Host<K>, list: seq<K>, i: nat, now: nat, cfg: Config)
    requires Known(h) && i < |list| && forall k :: k in list ==> k in h.elems
    ensures var k := list[i];
            var u := h.elems[k].inq;
            ReadFrom(h, list[i..], now, cfg)
            == if u.q == [] then ReadFrom(h, list[i + 1..], now, cfg)
               else if Q.Readable(u) then (On(h, k, Read, now, cfg), Some((k, u.q[0])))
               else ReadFrom(On(h, k, Tick, now, cfg), list[i + 1..], now, cfg)
  {
    hide Xmit, ReadHead;
    assert list[i] in list && list[i..][0] == list[i] && list[i..][1..] == list[i + 1..];
  }

  class FsProtocol<K(==)> {
    const cfg: Config
    var endpoints: map<K, FsProtoElem<K>>
    var ipend: seq<K>
    var unacked: seq<K>
    var wire: seq<Packet<K>>   // everything handed to the network

    constructor (cfg: Config)
      ensures this.cfg == cfg && endpoints == map[] && ipend == [] && unacked == [] && wire == []
    {
      this.cfg := cfg;
      endpoints := map[];
      ipend, unacked, wire := [], [], [];
    }

    /** A connection of this protocol object, as a value. */
    ghost function View(fspe: FsProtoElem<K>): Focus<K>
      reads this, fspe, fspe.outq, fspe.inq
    {
      Focus(fspe.endpoint, fspe.View(), ipend, unacked, wire, fspe.sent)
    }

    method SendAFrameSet(fspe: FsProtoElem<K>, fs: FrameSet)
      modifies this`wire
      ensures View(fspe) == Transmit(old(View(fspe)), fs)
    {
      wire := wire + [Packet(fspe.endpoint, fs)];
    }

    /** Empty an output queue and start its next session. */
    method RestartOutput(fspe: FsProtoElem<K>)
      modifies this`unacked, fspe.outq
      ensures var u := old(fspe.outq.View());
              && unacked == (if u.q == [] then old(unacked) else Remove(old(unacked), fspe.endpoint))
              && fspe.outq.View() == u.(q := [], next := 1, session := if u.session == 0 then 0 else u.session + 1,
                                        ready := if u.q == [] then u.ready else false)
    {
      hide Remove;
      if fspe.outq.q != [] {
        fspe.outq.Flush();
        unacked := Remove(unacked, fspe.endpoint);
        fspe.outq.isReady := false;
      }
      fspe.outq.nextSeqno := 1;
      if fspe.outq.sessionId != 0 {
        fspe.outq.sessionId := fspe.outq.sessionId + 1;
      }
    }

    /** Empty an input queue and forget its session. */
    method RestartInput(fspe: FsProtoElem<K>)
      modifies this`ipend, fspe.inq
      ensures var u := old(fspe.inq.View());
              && ipend == (if u.q == [] then old(ipend) else Remove(old(ipend), fspe.endpoint))
              && fspe.inq.View() == u.(q := [], next := 1, session := 0, ready := if u.q == [] then u.ready else false)
    {
      hide Remove;
      if fspe.inq.q != [] {
        fspe.inq.Flush();
        ipend := Remove(ipend, fspe.endpoint);
        fspe.inq.isReady := false;
      }
      fspe.inq.nextSeqno := 1;
      fspe.inq.sessionId := 0;
    }

    /** Put a connection back into the no-connection state. */
    method ReinitElem(fspe: FsProtoElem<K>)
      requires fspe.inq != fspe.outq
      modifies `ipend, `unacked, `wire, fspe, fspe.outq, fspe.inq
      ensures View(fspe) == Reinit(old(View(fspe)))
    {
      hide Remove;
      RestartOutput(fspe);
      RestartInput(fspe);
      fspe.lastacksent := None;
      fspe.lastseqsent := None;
      fspe.shuttimer := false;
      fspe.finalizetimer := false;
      fspe.nextrexmit := 0;
      fspe.acktimeout := 0;
      fspe.state := NONE;
      fspe.shutdown_complete := false;
    }

    /** Send an ACK for a sequence number. */
    method AckSeqnoOn(fspe: FsProtoElem<K>, s: Seqno)
      modifies `ipend, `unacked, `wire, fspe
      ensures View(fspe) == AckSeqno(old(View(fspe)), s)
    {
      if s.session != fspe.inq.sessionId && fspe.inq.sessionId != 0 {
        return;
      }
      SendAFrameSet(fspe, AckOf(s));
      if fspe.lastacksent == None || Compare(fspe.lastacksent.value, s) < 0 {
        fspe.lastacksent := Some(s);
      }
    }

    /** The connection automaton. Sending a CONNSHUT calls it again before it has stored its next state. */
    method FsaOn(fspe: FsProtoElem<K>, input: Input, fs: Option<FrameSet>, now: nat)
      requires fspe.inq != fspe.outq
      modifies `ipend, `unacked, `wire, fspe, fspe.outq, fspe.inq
      ensures View(fspe) == Fsa(old(View(fspe)), input, fs, now, cfg)
      decreases if MaySendShut(input) then 1 else 0, 0, 0
    {
      hide Send1, AckMe, Settle, NextState, ActionsFor;
      OnlyShutdownInputsSendShut(fspe.state, input);
      var nextstate := NextState(fspe.state, input);
      var action := ActionsFor(fspe.state, input);
      if action.ackMe {
        AckMeOn(fspe, fs);
      }
      if action.sndShut {
        var accepted := Send1On(fspe, ShutFrameSet(), now);
      }
      SettleOn(fspe, action, nextstate);
    }

    method AckMeOn(fspe: FsProtoElem<K>, fs: Option<FrameSet>)
      modifies `ipend, `unacked, `wire, fspe
      ensures View(fspe) == AckMe(old(View(fspe)), fs)
    {
      hide AckSeqno;
      if fs.Some? && GetSeqno(fs.value).Some? {
        AckSeqnoOn(fspe, GetSeqno(fs.value).value);
      }
    }

    /** The automaton's timer and close actions, and its new state. */
    method SettleOn(fspe: FsProtoElem<K>, action: Actions, nextstate: State)
      requires fspe.inq != fspe.outq
      modifies `ipend, `unacked, `wire, fspe, fspe.outq, fspe.inq
      ensures View(fspe) == Settle(old(View(fspe)), action, nextstate)
    {
      hide Reinit;
      if action.timer {
        fspe.shuttimer := true;
      }
      if action.noTime {
        fspe.shuttimer := false;
      }
      if action.close {
        ReinitElem(fspe);
        fspe.shutdown_complete := true;
        fspe.finalizetimer := true;
      }
      fspe.state := nextstate;
    }

    /** Enqueue and send a single reliable frameset. */
    method Send1On(fspe: FsProtoElem<K>, fs: FrameSet, now: nat) returns (ret: bool)
      requires fspe.inq != fspe.outq
      modifies `ipend, `unacked, `wire, fspe, fspe.outq, fspe.inq
      ensures (View(fspe), ret) == Send1(old(View(fspe)), fs, now, cfg)
      decreases 0, 2
    {
      hide Fsa, Xmit, Accept;
      if InShutdown(fspe.state) {
        return true;
      }
      FsaOn(fspe, ReqSend, None, now);
      ExpectAcks(fspe, now);
      ret := EnqOn(fspe, fs);
      XmitOn(fspe, now);
    }

    /** A connection whose output queue was empty joins those that wait for ACKs. */
    method ExpectAcks(fspe: FsProtoElem<K>, now: nat)
      modifies this`unacked, fspe`nextrexmit, fspe`acktimeout
      ensures var f := old(View(fspe));
              View(fspe) == if f.e.outq.q == [] then
                              f.(unacked := [f.me] + f.unacked,
                                 e := f.e.(nextRexmit := now + cfg.rexmit, ackTimeout := now + cfg.ackTimeout))
                            else f
    {
      if fspe.outq.q == [] {
        unacked := [fspe.endpoint] + unacked;
        fspe.nextrexmit := now + cfg.rexmit;
        fspe.acktimeout := now + cfg.ackTimeout;
      }
    }

    method EnqOn(fspe: FsProtoElem<K>, fs: FrameSet) returns (ret: bool)
      requires fspe.inq != fspe.outq
      modifies fspe`sent, fspe.outq
      ensures (View(fspe), ret) == Accept(old(View(fspe)), fs, cfg)
    {
      hide Q.Enq, Q.Stamp;
      ghost var before := fspe.outq.View();
      ret := fspe.outq.Enq(fs, cfg.processSession);
      if ret {
        fspe.sent := fspe.sent + [Q.Stamp(before, fs, cfg.processSession)];
      }
    }

    /** Transmit what has not been transmitted before, in queue order. */
    method SendNewOn(fspe: FsProtoElem<K>)
      modifies `ipend, `unacked, `wire, fspe
      ensures View(fspe) == SendNew(old(View(fspe)), 0)
    {
      hide Compare;
      var lastseq := fspe.lastseqsent;
      var i := 0;
      while i < |fspe.outq.q|
        invariant i <= |fspe.outq.q| && fspe.outq.View() == old(fspe.outq.View())
        invariant lastseq == fspe.lastseqsent
        invariant SendNew(View(fspe), i) == SendNew(old(View(fspe)), 0)
        decreases |fspe.outq.q| - i
      {
        var fs := fspe.outq.q[i];
        var seqno := GetSeqno(fs);
        i := i + 1;
        if lastseq.Some? && seqno.Some? && Compare(lastseq.value, seqno.value) >= 0 {
          continue;
        }
        SendAFrameSet(fspe, fs);
        if seqno.Some? {
          fspe.lastseqsent := seqno;
          lastseq := seqno;
        }
      }
    }

    /** Send any packets that need sending, and retransmit the oldest one when it is time. */
    method XmitOn(fspe: FsProtoElem<K>, now: nat)
      requires fspe.inq != fspe.outq
      modifies `ipend, `unacked, `wire, fspe, fspe.outq, fspe.inq
      ensures View(fspe) == Xmit(old(View(fspe)), now, cfg)
      decreases 0, 1
    {
      hide SendNew, Rexmit;
      var orig_outstanding := |fspe.outq.q|;
      if |fspe.outq.q| < cfg.window {
        SendNewOn(fspe);
      }
      if fspe.nextrexmit == 0 && |fspe.outq.q| > 0 {
        fspe.nextrexmit := now + cfg.rexmit;
      } else if fspe.nextrexmit != 0 && now > fspe.nextrexmit {
        RexmitOn(fspe, now);
      }
      if orig_outstanding == 0 && |fspe.outq.q| > 0 {
        unacked := [fspe.endpoint] + unacked;
      }
    }

    method RexmitOn(fspe: FsProtoElem<K>, now: nat)
      requires fspe.inq != fspe.outq
      modifies `ipend, `unacked, `wire, fspe, fspe.outq, fspe.inq
      ensures View(fspe) == Rexmit(old(View(fspe)), now, cfg)
      decreases 0, 0, 1
    {
      hide Fsa, Transmit;
      var fs := fspe.outq.QHead();
      if fs.None? {
        fspe.nextrexmit := 0;
        return;
      }
      Resend(fspe, fs.value, now);
      if now > fspe.acktimeout {
        FsaOn(fspe, AckTimedOut, None, now);
        fspe.acktimeout := now + cfg.ackTimeout;
      }
    }

    method Resend(fspe: FsProtoElem<K>, fs: FrameSet, now: nat)
      modifies `wire, fspe`nextrexmit
      ensures var f := old(View(fspe));
              View(fspe) == Transmit(f.(e := f.e.(nextRexmit := now + cfg.rexmit)), fs)
    {
      fspe.nextrexmit := now + cfg.rexmit;
      SendAFrameSet(fspe, fs);
    }

    /** An ACK, a CONNNAK, or a frameset to queue has arrived. */
    method ReceiveOn(fspe: FsProtoElem<K>, fs: FrameSet, now: nat)
      requires fspe.inq != fspe.outq
      modifies `ipend, `unacked, `wire, fspe, fspe.outq, fspe.inq
      ensures View(fspe) == Receive(old(View(fspe)), fs, now, cfg)
    {
      hide Xmit, Fsa, ReceiveAck, File;
      if fs.fstype == ACK {
        ReceiveAckOn(fspe, fs, now);
        return;
      }
      if fs.fstype == CONNNAK {
        FsaOn(fspe, GotConnNak, Some(fs), now);
        return;
      }
      var seqno := GetSeqno(fs);
      FileOn(fspe, fs, now);
      if !fspe.inq.isReady {
        if seqno.None? || seqno.value.reqid == fspe.inq.nextSeqno {
          ipend := ipend + [fspe.endpoint];
          fspe.inq.isReady := true;
        }
      }
      XmitOn(fspe, now);
    }

    method ReceiveAckOn(fspe: FsProtoElem<K>, fs: FrameSet, now: nat)
      requires fspe.inq != fspe.outq
      modifies `ipend, `unacked, `wire, fspe, fspe.outq, fspe.inq
      ensures View(fspe) == ReceiveAck(old(View(fspe)), fs, now, cfg)
    {
      hide Xmit, Fsa, Q.AckThrough;
      var seqno := GetSeqno(fs);
      if seqno.None? {
        return;
      }
      var ackcount := fspe.outq.AckThrough(seqno.value);
      if ackcount < 0 {
        return;
      }
      if fspe.outq.q == [] {
        unacked := Remove(unacked, fspe.endpoint);
        fspe.nextrexmit := 0;
        XmitOn(fspe, now);
        fspe.acktimeout := 0;
        if ackcount > 0 {
          FsaOn(fspe, OutAllDone, Some(fs), now);
        }
      } else {
        fspe.acktimeout := now + cfg.ackTimeout;
        XmitOn(fspe, now);
      }
    }

    method FileOn(fspe: FsProtoElem<K>, fs: FrameSet, now: nat)
      requires fspe.inq != fspe.outq
      modifies `ipend, `unacked, `wire, fspe, fspe.outq, fspe.inq
      ensures View(fspe) == File(old(View(fspe)), fs, now, cfg)
    {
      hide Fsa, AckSeqno, Q.InqSorted;
      var seqno := GetSeqno(fs);
      var queued := fspe.inq.InqSorted(fs);
      if queued {
        if seqno.Some? {
          if fspe.acktimeout == 0 {
            fspe.acktimeout := now + cfg.ackTimeout;
          }
          if seqno.value.reqid == 1 {
            FsaOn(fspe, GotStart, Some(fs), now);
          }
        }
      } else if seqno.Some? && fspe.lastacksent.Some? {
        if seqno.value.session == fspe.lastacksent.value.session
           && Compare(seqno.value, fspe.lastacksent.value) <= 0 {
          AckSeqnoOn(fspe, fspe.lastacksent.value);
        }
      }
    }

    /** Take the head off a readable queue, and go to the end of the list if there is more. */
    method DequeueOn(fspe: FsProtoElem<K>) returns (ret: FrameSet)
      requires fspe.inq != fspe.outq && Q.Readable(fspe.inq.View())
      modifies this`ipend, fspe.inq
      ensures ret == old(fspe.inq.q[0])
      ensures View(fspe) == Dequeue(old(View(fspe)))
    {
      hide Remove;
      var head := fspe.inq.Deq();
      ret := head.value;
      if GetSeqno(ret).Some? {
        fspe.inq.nextSeqno := fspe.inq.nextSeqno + 1;
      }
      var fs := fspe.inq.QHead();
      var del_link := fs.None?;
      if fs.Some? {
        var seqno := GetSeqno(fs.value);
        if seqno.Some? && seqno.value.reqid != fspe.inq.nextSeqno {
          del_link := true;
        }
      }
      ipend := Remove(ipend, fspe.endpoint);
      if del_link {
        fspe.inq.isReady := false;
      } else {
        fspe.inq.isReady := true;
        ipend := ipend + [fspe.endpoint];
      }
    }

    /** Hand the head of a readable queue to the client. */
    method ReadFromElem(fspe: FsProtoElem<K>, now: nat) returns (ret: FrameSet)
      requires fspe.inq != fspe.outq && Q.Readable(fspe.inq.View())
      modifies `ipend, `unacked, `wire, fspe, fspe.outq, fspe.inq
      ensures ret == old(fspe.inq.q[0])
      ensures View(fspe) == ReadHead(old(View(fspe)), now, cfg)
    {
      hide Xmit, Fsa, Dequeue;
      ret := DequeueOn(fspe);
      if ret.fstype == CONNSHUT {
        FsaOn(fspe, RcvShutdown, Some(ret), now);
      }
      XmitOn(fspe, now);
    }

    // ---------- All connections ----------

    /** Every connection has queues of its own, and is filed under its address. */
    ghost predicate Separate()
      reads this
    {
      && (forall k :: k in endpoints ==> endpoints[k].endpoint == k && endpoints[k].inq != endpoints[k].outq)
      && (forall j, k :: j in endpoints && k in endpoints && j != k ==>
            && endpoints[j] != endpoints[k]
            && endpoints[j].inq != endpoints[k].inq && endpoints[j].outq != endpoints[k].outq
            && endpoints[j].inq != endpoints[k].outq)
    }

    ghost function Footprint(): set<object>
      reads this
    {
      (set k | k in endpoints :: endpoints[k])
      + (set k | k in endpoints :: endpoints[k].inq) + (set k | k in endpoints :: endpoints[k].outq)
    }

    /** The whole protocol object as a value. */
    ghost function HostView(): Host<K>
      reads this, Footprint()
    {
      Host(map k | k in endpoints :: endpoints[k].View(), map k | k in endpoints :: endpoints[k].sent,
           ipend, unacked, wire)
    }

    /** An operation on one connection leaves the others' parts of the host as they were. */
    twostate lemma OneChanged(k: K)
      requires k in endpoints && endpoints == old(endpoints) && endpoints[k].endpoint == k
      requires forall j :: j in endpoints && j != k ==>
                 endpoints[j].View() == old(endpoints[j].View()) && endpoints[j].sent == old(endpoints[j].sent)
      ensures HostView() == Put(old(HostView()), View(endpoints[k]))
    {
      hide FsProtoElem.View;
      var was, becomes := old(HostView()), HostView();
      assert becomes.elems == was.elems[k := endpoints[k].View()];
      assert becomes.sents == was.sents[k := endpoints[k].sent];
    }

    lemma OfView(k: K)
      requires k in endpoints && endpoints[k].endpoint == k
      ensures HostView().elems.Keys == endpoints.Keys && Known(HostView())
      ensures HostView().elems[k] == endpoints[k].View()
      ensures Of(HostView(), k) == View(endpoints[k])
    {
      hide FsProtoElem.View;
    }

    /** The connection for an address; a new one if there is none. */
    method AddConnection(k: K, qid: nat) returns (fspe: FsProtoElem<K>)
      requires Separate()
      modifies `endpoints
      ensures Separate() && k in endpoints && fspe == endpoints[k]
      ensures HostView() == AddConn(old(HostView()), k, qid, cfg)
    {
      if k in endpoints {
        return endpoints[k];
      }
      hide FsProtoElem.View, HostView, FreshElem, Separate;
      assert k !in HostView().elems by { KeysOf(); }
      fspe := new FsProtoElem(k, cfg.maxq, qid);
      endpoints := endpoints[k := fspe];
      SeparateGrows(k);
      OneAdded(k);
    }

    twostate lemma SeparateGrows(k: K)
      requires old(Separate()) && k !in old(endpoints) && k in endpoints
              && endpoints == old(endpoints)[k := endpoints[k]]
      requires endpoints[k].endpoint == k && endpoints[k].inq != endpoints[k].outq
      requires fresh(endpoints[k]) && fresh(endpoints[k].inq) && fresh(endpoints[k].outq)
      ensures Separate()
    {
      hide FsProtoElem.View;
      assert forall j :: j in endpoints && j != k ==> endpoints[j] == old(endpoints[j]);
    }

    lemma KeysOf()
      ensures HostView().elems.Keys == endpoints.Keys && Known(HostView())
    {
      hide FsProtoElem.View;
    }

    twostate lemma OneAdded(k: K)
      requires k !in old(endpoints) && endpoints.Keys == old(endpoints.Keys) + {k}
      requires forall j :: j in old(endpoints) ==>
                 endpoints[j] == old(endpoints[j])
                 && endpoints[j].View() == old(endpoints[j].View()) && endpoints[j].sent == old(endpoints[j].sent)
      requires ipend == old(ipend) && unacked == old(unacked) && wire == old(wire)
      ensures var h := old(HostView());
              HostView() == h.(elems := h.elems[k := endpoints[k].View()], sents := h.sents[k := endpoints[k].sent])
    {
      hide FsProtoElem.View;
      var was, becomes := old(HostView()), HostView();
      assert becomes.elems == was.elems[k := endpoints[k].View()];
      assert becomes.sents == was.sents[k := endpoints[k].sent];
    }

    /** The retransmit timer's work on one connection. */
    method TickElem(k: K, now: nat)
      requires Separate() && k in endpoints
      modifies `ipend, `unacked, `wire, endpoints[k], endpoints[k].inq, endpoints[k].outq
      ensures HostView() == On(old(HostView()), k, Tick, now, cfg)
    {
      hide Xmit, On, HostView, Put;
      OfView(k);
      OnIs(HostView(), k, now, cfg);
      XmitOn(endpoints[k], now);
      OneChanged(k);
    }

    method ReadElem(k: K, now: nat) returns (fs: FrameSet)
      requires Separate() && k in endpoints && Q.Readable(endpoints[k].inq.View())
      modifies `ipend, `unacked, `wire, endpoints[k], endpoints[k].inq, endpoints[k].outq
      ensures fs == old(endpoints[k].inq.q[0])
      ensures HostView() == On(old(HostView()), k, Read, now, cfg)
    {
      hide ReadHead, On, HostView, Put;
      OfView(k);
      OnIs(HostView(), k, now, cfg);
      fs := ReadFromElem(endpoints[k], now);
      OneChanged(k);
    }

    /** Read the next available frameset from any of our sources. */
    method ReadNext(now: nat) returns (r: Option<(K, FrameSet)>)
      requires Separate() && forall k :: k in ipend ==> k in endpoints
      modifies `ipend, `unacked, `wire, Footprint()
      ensures HostView().elems.Keys == old(HostView().elems.Keys)
      ensures Known(old(HostView())) && (HostView(), r) == ReadFrom(old(HostView()), old(ipend), now, cfg)
    {
      hide On, HostView, ReadFrom;
      var list := ipend;
      ghost var before := HostView();
      KeysOf();
      assert list[0..] == list;
      for i := 0 to |list|
        invariant endpoints == old(endpoints)
        invariant HostView().elems.Keys == before.elems.Keys == endpoints.Keys && Known(HostView())
        invariant ReadFrom(HostView(), list[i..], now, cfg) == ReadFrom(before, list, now, cfg)
      {
        var k := list[i];
        assert k in list;
        OfView(k);
        ReadFromAt(HostView(), list, i, now, cfg);
        var iq := endpoints[k].inq;
        if iq.q == [] {
          continue;
        }
        var seqno := GetSeqno(iq.q[0]);
        if seqno.None? || seqno.value.reqid == iq.nextSeqno {
          var ret := ReadElem(k, now);
          KeysOf();
          return Some((k, ret));
        }
        TickElem(k, now);
        KeysOf();
      }
      assert list[|list|..] == [];
      NothingToRead(HostView(), now, cfg);
      return None;
    }

    /** The retransmit timer: transmit on every connection that waits for ACKs. */
    method TimeoutFun(now: nat)
      requires Separate() && forall k :: k in unacked ==> k in endpoints
      modifies `ipend, `unacked, `wire, Footprint()
      ensures Known(old(HostView())) && HostView() == TickList(old(HostView()), old(unacked), now, cfg)
    {
      hide On, HostView;
      var list := unacked;
      ghost var before := HostView();
      KeysOf();
      assert list[0..] == list;
      for i := 0 to |list|
        invariant endpoints == old(endpoints)
        invariant HostView().elems.Keys == before.elems.Keys == endpoints.Keys && Known(HostView())
        invariant TickList(HostView(), list[i..], now, cfg) == TickList(before, list, now, cfg)
      {
        var k := list[i];
        assert k in list && list[i..][0] == k && list[i..][1..] == list[i + 1..];
        TickElem(k, now);
        KeysOf();
      }
    }
  }

  lemma NothingToRead<K>(h: Host<K>, now: nat, cfg: Config)
    requires Known(h)
    ensures ReadFrom(h, [], now, cfg) == (h, None)
  {
  }
}
