/** An FsProtocol: all the connections of a process, the lists they share, and reading from all of them. */
module Host {
  import opened FrameSets
  import opened FsProtocolSpec
  import opened FsProtocolInvariants
  import opened FsProtocolShutdown
  import opened Connection
  import opened ReadyMarks
  import opened Neighbours
  import Q = FsQueueSpec

  datatype Host<K> = Host(
    elems: map<K, Elem>,
    sents: map<K, seq<FrameSet>>,   // history: what each output queue has accepted
    ipend: seq<K>,
    unacked: seq<K>,
    wire: seq<Packet<K>>)

  /** One connection of a host. */
  function Of<K>(h: Host<K>, k: K): Focus<K>
    requires k in h.elems && k in h.sents
  {
    Focus(k, h.elems[k], h.ipend, h.unacked, h.wire, h.sents[k])
  }

  /** A host after an operation on one connection. */
  function Put<K>(h: Host<K>, f: Focus<K>): Host<K> {
    Host(h.elems[f.me := f.e], h.sents[f.me := f.sent], f.ipend, f.unacked, f.wire)
  }

  predicate Known<K>(h: Host<K>) {
    h.elems.Keys == h.sents.Keys
  }

  /** The connection for an address, made if there is none. */
  function AddConn<K>(h: Host<K>, k: K, qid: nat, cfg: Config): Host<K> {
    if k in h.elems then h
    else h.(elems := h.elems[k := FreshElem(cfg.maxq, qid)], sents := h.sents[k := []])
  }

  function On<K(==)>(h: Host<K>, k: K, op: Op, now: nat, cfg: Config): Host<K>
    requires k in h.elems && k in h.sents && Enabled(Of(h, k), op)
  {
    Put(h, Step(Of(h, k), op, now, cfg))
  }

  /** Destroy a connection: reset it and drop it from the table. */
  function Destroy<K(==)>(h: Host<K>, k: K): Host<K>
    requires k in h.elems && k in h.sents
  {
    var f := Reinit(Of(h, k));
    Host(h.elems - {k}, h.sents - {k}, f.ipend, f.unacked, f.wire)
  }

  /** When a destroyed connection would still be listed as readable. */
  predicate Dangles(e: Elem) {
    e.inq.ready && e.inq.q == []
  }

  predicate CanCloseImmediately(e: Elem) {
    e.outq.next <= 1 && e.inq.next <= 1
  }

  /** Transmit on each of the listed connections. */
  function TickList<K(==)>(h: Host<K>, list: seq<K>, now: nat, cfg: Config): Host<K>
    requires Known(h) && forall k :: k in list ==> k in h.elems
    decreases |list|
  {
    if list == [] then h else TickList(On(h, list[0], Tick, now, cfg), list[1..], now, cfg)
  }

  /** Look through the listed connections for one that can be read; transmit on those that cannot. */
  function ReadFrom<K(==)>(h: Host<K>, list: seq<K>, now: nat, cfg: Config): (Host<K>, Option<(K, FrameSet)>)
    requires Known(h) && forall k :: k in list ==> k in h.elems
    decreases |list|
  {
    if list == [] then (h, None)
    else
      var u := h.elems[list[0]].inq;
      if u.q == [] then ReadFrom(h, list[1..], now, cfg)
      else if Q.Readable(u) then (On(h, list[0], Read, now, cfg), Some((list[0], u.q[0])))
      else ReadFrom(On(h, list[0], Tick, now, cfg), list[1..], now, cfg)
  }

  datatype HostOp<K> =
    | Receiving(k: K, qid: nat, fs: FrameSet)
    | Sending(k: K, qid: nat, fs: FrameSet)
    | Acting(k: K, op: Op)
    | Reading
    | Ticking
    | Destroying(k: K)

  predicate HostEnabled<K>(h: Host<K>, op: HostOp<K>) {
    match op
    case Receiving(_, _, fs) => Arrivable(fs)
    case Sending(_, _, fs) => ClientFrame(fs)
    case Acting(k, o) =>
      k in h.elems && k in h.sents && (o.ClientAck? || o.CloseRequest? || o.ShutTimer?) && Enabled(Of(h, k), o)
    case Destroying(k) =>
      k in h.elems && !Dangles(h.elems[k])
      && (CanCloseImmediately(h.elems[k]) || (h.elems[k].finalizeTimer && h.elems[k].state == NONE))
    case _ => true
  }

  // ---------- The invariant ----------

  ghost predicate HostOk<K(!new)>(h: Host<K>, cfg: Config) {
    && Sane(cfg) && Known(h)
    && (forall k :: k in h.ipend ==> k in h.elems)
    && (forall k :: k in h.unacked ==> k in h.elems)
    && (forall k :: k in h.elems ==> Good(Of(h, k), cfg))
  }

  ghost function HostStep<K(!new)>(h: Host<K>, op: HostOp<K>, now: nat, cfg: Config): Host<K>
    requires HostOk(h, cfg) && HostEnabled(h, op)
  {
    match op
    case Receiving(k, qid, fs) => On(AddConn(h, k, qid, cfg), k, Arrive(fs), now, cfg)
    case Sending(k, qid, fs) => On(AddConn(h, k, qid, cfg), k, Send(fs), now, cfg)
    case Acting(k, o) => On(h, k, o, now, cfg)
    case Reading => ReadFrom(h, h.ipend, now, cfg).0
    case Ticking => TickList(h, h.unacked, now, cfg)
    case Destroying(k) => Destroy(h, k)
  }

  /** A connection can be closed immediately exactly if nothing has been accepted in its output session and nothing
      with a sequence number has been handed out since it was reset; closing it then loses no output. */
  lemma CanCloseIff<K>(f: Focus<K>, cfg: Config)
    requires Good(f, cfg)
    ensures CanCloseImmediately(f.e) <==>
            && f.e.inq.next == 1
            && forall i :: 0 <= i < |f.sent| ==> GetSeqno(f.sent[i]).value.session != f.e.outq.session
    ensures CanCloseImmediately(f.e) ==> f.e.outq.q == [] && f.me !in f.unacked
  {
    hide Q.Readable, ReadyOk, WindowOk, Q.Ascending, Q.InSession;
    var n := |f.sent| - 1;
    if CanCloseImmediately(f.e) {
      forall i | 0 <= i < |f.sent| ensures GetSeqno(f.sent[i]).value.session != f.e.outq.session {
        if i < n { NoIdReused(f.sent, i, n); }
      }
    }
  }

  lemma GoodMoved<K>(f: Focus<K>, g: Focus<K>, cfg: Config)
    requires Good(f, cfg) && g.me == f.me && g.e == f.e && g.sent == f.sent
    requires multiset(g.ipend)[f.me] == multiset(f.ipend)[f.me]
    requires multiset(g.unacked)[f.me] == multiset(f.unacked)[f.me]
    ensures Good(g, cfg)
  {
    hide Chained, SentOk, Q.OutOk, Q.InOk, WindowOk, Q.Readable, Q.FirstId;
  }

  lemma OthersListed<K>(a: seq<K>, b: seq<K>, i: K, j: K)
    requires OthersStay(a, b, i) && i != j
    ensures multiset(a)[j] == multiset(b)[j] && (j in a <==> j in b)
  {
    assert multiset(a)[i := 0][j] == multiset(b)[i := 0][j];
  }

  lemma PutKeeps<K(!new)>(h: Host<K>, f: Focus<K>, cfg: Config)
    requires HostOk(h, cfg) && f.me in h.elems && Good(f, cfg) && Apart(Of(h, f.me), f)
    ensures HostOk(Put(h, f), cfg)
  {
    hide Good, OthersStay;
    var g := Put(h, f);
    forall k | k in g.elems ensures Good(Of(g, k), cfg) {
      if k != f.me {
        OthersListed(h.ipend, f.ipend, f.me, k);
        OthersListed(h.unacked, f.unacked, f.me, k);
        GoodMoved(Of(h, k), Of(g, k), cfg);
      }
    }
    forall k | k in g.ipend ensures k in g.elems { if k != f.me { OthersListed(h.ipend, f.ipend, f.me, k); } }
    forall k | k in g.unacked ensures k in g.elems { if k != f.me { OthersListed(h.unacked, f.unacked, f.me, k); } }
  }

  lemma OnKeeps<K(!new)>(h: Host<K>, k: K, op: Op, now: nat, cfg: Config)
    requires HostOk(h, cfg) && k in h.elems && Enabled(Of(h, k), op)
    ensures HostOk(On(h, k, op, now, cfg), cfg)
    ensures On(h, k, op, now, cfg).elems.Keys == h.elems.Keys
    ensures Apart(Of(h, k), Step(Of(h, k), op, now, cfg))
  {
    hide Good, OrderKept, OthersStay, Step, Enabled;
    StepKeepsGood(Of(h, k), op, now, cfg);
    StepApart(Of(h, k), op, now, cfg);
    PutKeeps(h, Step(Of(h, k), op, now, cfg), cfg);
  }

  lemma AddConnKeeps<K(!new)>(h: Host<K>, k: K, qid: nat, cfg: Config)
    requires HostOk(h, cfg)
    ensures HostOk(AddConn(h, k, qid, cfg), cfg)
  {
    hide Good;
    var g := AddConn(h, k, qid, cfg);
    if k !in h.elems { FreshGood(k, h.ipend, h.unacked, h.wire, qid, cfg); }
    forall j | j in g.elems ensures Good(Of(g, j), cfg) {
      assert j != k || k in h.elems ==> Of(g, j) == Of(h, j);
    }
  }

  /** After a connection is destroyed it is still listed as readable exactly when it was marked ready with an empty
      input queue; it is never still listed as unacknowledged. */
  lemma DestroyDangles<K(!new)>(h: Host<K>, k: K, cfg: Config)
    requires HostOk(h, cfg) && k in h.elems
    ensures k in Destroy(h, k).ipend <==> Dangles(h.elems[k])
    ensures k !in Destroy(h, k).unacked
  {
    hide Chained, SentOk, Q.OutOk, Q.InOk, WindowOk, Q.FirstId;
    assert Good(Of(h, k), cfg);
    RemoveOne(h.ipend, k);
    RemoveOne(h.unacked, k);
  }

  lemma DestroyKeeps<K(!new)>(h: Host<K>, k: K, cfg: Config)
    requires HostOk(h, cfg) && k in h.elems && !Dangles(h.elems[k])
    ensures HostOk(Destroy(h, k), cfg)
  {
    hide Good, OthersStay, Reinit, Dangles;
    var g := Destroy(h, k);
    DestroyDangles(h, k, cfg);
    ReinitApart(Of(h, k));
    forall j | j in g.elems ensures Good(Of(g, j), cfg) {
      OthersListed(h.ipend, g.ipend, k, j);
      OthersListed(h.unacked, g.unacked, k, j);
      GoodMoved(Of(h, j), Of(g, j), cfg);
    }
    forall j | j in g.ipend ensures j in g.elems { if j != k { OthersListed(h.ipend, g.ipend, k, j); } }
    forall j | j in g.unacked ensures j in g.elems { if j != k { OthersListed(h.unacked, g.unacked, k, j); } }
  }

  lemma {:induction false} TickListKeeps<K(!new)>(h: Host<K>, list: seq<K>, now: nat, cfg: Config)
    requires HostOk(h, cfg) && forall k :: k in list ==> k in h.elems
    ensures HostOk(TickList(h, list, now, cfg), cfg)
    decreases |list|
  {
    hide HostOk, On;
    assert Known(h) by { OkKnown(h, cfg); }
    if list == [] {
    } else {
      OnKeeps(h, list[0], Tick, now, cfg);
      TickListKeeps(On(h, list[0], Tick, now, cfg), list[1..], now, cfg);
    }
  }

  lemma OkKnown<K(!new)>(h: Host<K>, cfg: Config)
    requires HostOk(h, cfg)
    ensures Known(h)
  {
    hide Good;
  }

  lemma {:induction false} ReadFromKeeps<K(!new)>(h: Host<K>, list: seq<K>, now: nat, cfg: Config)
    requires HostOk(h, cfg) && forall k :: k in list ==> k in h.elems
    ensures HostOk(ReadFrom(h, list, now, cfg).0, cfg)
    decreases |list|
  {
    hide HostOk, On;
    assert Known(h) by { OkKnown(h, cfg); }
    if list == [] {
    } else {
      var u := h.elems[list[0]].inq;
      if u.q == [] {
        ReadFromKeeps(h, list[1..], now, cfg);
      } else if Q.Readable(u) {
        OnKeeps(h, list[0], Read, now, cfg);
      } else {
        OnKeeps(h, list[0], Tick, now, cfg);
        ReadFromKeeps(On(h, list[0], Tick, now, cfg), list[1..], now, cfg);
      }
    }
  }

  /** Every operation of a host keeps every connection's invariants, and the lists name only existing connections. */
  lemma HostStepKeeps<K(!new)>(h: Host<K>, op: HostOp<K>, now: nat, cfg: Config)
    requires HostOk(h, cfg) && HostEnabled(h, op)
    ensures HostOk(HostStep(h, op, now, cfg), cfg)
  {
    hide Good, On, Destroy;
    match op
    case Receiving(k, qid, fs) =>
      AddConnKeeps(h, k, qid, cfg);
      OnKeeps(AddConn(h, k, qid, cfg), k, Arrive(fs), now, cfg);
    case Sending(k, qid, fs) =>
      AddConnKeeps(h, k, qid, cfg);
      OnKeeps(AddConn(h, k, qid, cfg), k, Send(fs), now, cfg);
    case Acting(k, o) => OnKeeps(h, k, o, now, cfg);
    case Reading => ReadFromKeeps(h, h.ipend, now, cfg);
    case Ticking => TickListKeeps(h, h.unacked, now, cfg);
    case Destroying(k) => DestroyKeeps(h, k, cfg);
  }

  // ---------- What read returns ----------

  predicate ReadableAt<K>(h: Host<K>, k: K) {
    k in h.elems && Q.Readable(h.elems[k].inq)
  }

  lemma TickLeavesOthers<K>(h: Host<K>, k: K, j: K, now: nat, cfg: Config)
    requires k in h.elems && k in h.sents && Good(Of(h, k), cfg)
    ensures var g := On(h, k, Tick, now, cfg);
            && (j != k && j in h.elems ==> g.elems[j] == h.elems[j])
            && (!ReadableAt(h, k) ==> !ReadableAt(g, k))
  {
    hide Good, Xmit;
    XmitKeeps(Of(h, k), now, cfg);
    XmitInq(Of(h, k), now, cfg);
    XmitEffect(Of(h, k), now, cfg);
  }

  /** Read hands out the head of the first readable connection in the list, and nothing if none is readable. */
  lemma {:induction false} ReadFromFinds<K(!new)>(h: Host<K>, list: seq<K>, now: nat, cfg: Config)
    requires HostOk(h, cfg) && forall k :: k in list ==> k in h.elems
    ensures var (g, r) := ReadFrom(h, list, now, cfg);
            && (r.None? <==> forall i :: 0 <= i < |list| ==> !ReadableAt(h, list[i]))
            && (r.Some? ==> exists i :: ServedAt(h, list, i, r.value))
    decreases |list|
  {
    hide HostOk, On, Q.Readable;
    assert Known(h) by { OkKnown(h, cfg); }
    if list == [] {
    } else {
      var k := list[0];
      var u := h.elems[k].inq;
      var rest := list[1..];
      if u.q != [] && Q.Readable(u) {
        assert ServedAt(h, list, 0, (k, u.q[0]));
      } else {
        assert !ReadableAt(h, k) by { EmptyUnreadable(u); }
        var h1 := if u.q == [] then h else On(h, k, Tick, now, cfg);
        if u.q != [] { OnKeeps(h, k, Tick, now, cfg); }
        ReadFromFinds(h1, rest, now, cfg);
        OkKnown(h1, cfg);
        forall j | j in h.elems ensures ReadableAt(h1, j) <==> ReadableAt(h, j)
                                ensures j != k ==> h1.elems[j] == h.elems[j]
        {
          if u.q != [] { GoodAt(h, k, cfg); TickLeavesOthers(h, k, j, now, cfg); }
        }
        var (g, r) := ReadFrom(h1, rest, now, cfg);
        ServedShift(h, h1, list, r);
      }
    }
  }

  lemma EmptyUnreadable(u: Q.Queue)
    requires u.q == [] || !Q.Readable(u)
    ensures !Q.Readable(u)
  {
  }

  lemma GoodAt<K(!new)>(h: Host<K>, k: K, cfg: Config)
    requires HostOk(h, cfg) && k in h.elems
    ensures k in h.sents && Good(Of(h, k), cfg)
  {
    hide Good;
  }

  /** Position i is the first readable one, and its head is what was served. */
  predicate ServedAt<K(==)>(h: Host<K>, list: seq<K>, i: int, served: (K, FrameSet)) {
    && 0 <= i < |list| && ReadableAt(h, list[i])
    && served.0 == list[i] && h.elems[list[i]].inq.q != [] && served.1 == h.elems[list[i]].inq.q[0]
    && forall j :: 0 <= j < i ==> !ReadableAt(h, list[j])
  }

  lemma ServedShift<K>(h: Host<K>, h1: Host<K>, list: seq<K>, r: Option<(K, FrameSet)>)
    requires list != [] && !ReadableAt(h, list[0])
    requires forall k :: k in list ==> k in h.elems && k in h1.elems
    requires forall j :: j in h.elems ==> (ReadableAt(h1, j) <==> ReadableAt(h, j))
    requires forall j :: j in h.elems && j in h1.elems && j != list[0] ==> h1.elems[j] == h.elems[j]
    requires r.None? <==> forall i :: 0 <= i < |list[1..]| ==> !ReadableAt(h1, list[1..][i])
    requires r.Some? ==> exists i :: ServedAt(h1, list[1..], i, r.value)
    ensures r.None? <==> forall i :: 0 <= i < |list| ==> !ReadableAt(h, list[i])
    ensures r.Some? ==> exists i :: ServedAt(h, list, i, r.value)
  {
    hide ReadableAt;
    assert list == [list[0]] + list[1..];
    if r.Some? {
      var i :| ServedAt(h1, list[1..], i, r.value);
      assert ServedAt(h, list, i + 1, r.value) by {
        assert list[i + 1] == list[1..][i];
        assert list[i + 1] in list;
        forall j | 0 <= j < i + 1 ensures !ReadableAt(h, list[j]) {
          assert list[j] in list;
          assert j > 0 ==> list[j] == list[1..][j - 1];
        }
      }
    }
  }

  /** A frameset is returned exactly when some connection has a readable head. */
  lemma ReadIffReadable<K(!new)>(h: Host<K>, now: nat, cfg: Config)
    requires HostOk(h, cfg)
    ensures ReadFrom(h, h.ipend, now, cfg).1.Some? <==> exists k :: k in h.elems && ReadableAt(h, k)
  {
    hide Good, On;
    ReadFromFinds(h, h.ipend, now, cfg);
    forall k | k in h.elems && ReadableAt(h, k) ensures k in h.ipend { ReadableListed(h, k, cfg); }
    assert forall i :: 0 <= i < |h.ipend| ==> h.ipend[i] in h.elems;
  }

  lemma ReadableListed<K(!new)>(h: Host<K>, k: K, cfg: Config)
    requires HostOk(h, cfg) && ReadableAt(h, k)
    ensures k in h.ipend
  {
    hide Chained, SentOk, Q.OutOk, Q.InOk, WindowOk, Q.FirstId;
    assert Good(Of(h, k), cfg);
  }
}
