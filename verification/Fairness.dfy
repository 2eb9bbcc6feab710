/** Reading is fair: a connection that stays readable is served after at most one read for each one ahead of it. */
module Fairness {
  import opened FrameSets
  import opened FsProtocolSpec
  import opened FsProtocolInvariants
  import opened FsProtocolShutdown
  import opened Connection
  import opened ReadyMarks
  import opened Neighbours
  import opened Host
  import Q = FsQueueSpec

  // ---------- A connection's own place in the list ----------

  /** Unless its input queue has been emptied, a connection's input and the list of readable ones are untouched. */
  predicate Still<K(==)>(f: Focus<K>, g: Focus<K>) {
    g.e.inq.q != [] ==> g.ipend == f.ipend && g.e.inq == f.e.inq
  }

  lemma XmitStill<K>(f: Focus<K>, now: nat, cfg: Config)
    requires Good(f, cfg)
    ensures Still(f, Xmit(f, now, cfg))
  {
    hide Good, Xmit;
    XmitEffect(f, now, cfg);
  }

  lemma SettleStill<K>(f: Focus<K>, act: Actions, next: State)
    ensures Still(f, Settle(f, act, next))
  {
    hide Remove;
  }

  lemma Send1Still<K>(f: Focus<K>, fs: FrameSet, now: nat, cfg: Config)
    requires Good(f, cfg) && Sendable(fs)
    ensures Still(f, Send1(f, fs, now, cfg).0)
  {
    hide Good, Xmit, Send1;
    if InShutdown(f.e.state) {
      Send1Refuses(f, fs, now, cfg);
    } else {
      var f1, f2 := Send1Unfolds(f, fs, now, cfg);
      StateKeepsGood(f, f1.e.state, cfg);
      AppendKeeps(f1, fs, now, cfg);
      XmitStill(f2, now, cfg);
    }
  }

  lemma FsaStill<K>(f: Focus<K>, input: Input, fs: Option<FrameSet>, now: nat, cfg: Config)
    requires Good(f, cfg)
    ensures Still(f, Fsa(f, input, fs, now, cfg))
  {
    hide Good, Send1, AckMe, NextState, ActionsFor, Settle;
    var act := ActionsFor(f.e.state, input);
    var f1 := if act.ackMe then AckMe(f, fs) else f;
    AckMeKeeps(f, fs, cfg);
    AckMeEffect(f, fs);
    Send1Still(f1, ShutFrameSet(), now, cfg);
    SettleStill(if act.sndShut then Send1(f1, ShutFrameSet(), now, cfg).0 else f1, act, NextState(f.e.state, input));
  }

  lemma ReceiveAckStill<K>(f: Focus<K>, fs: FrameSet, now: nat, cfg: Config)
    requires Good(f, cfg)
    ensures Still(f, ReceiveAck(f, fs, now, cfg))
  {
    hide Good, Xmit, Fsa, Q.AckThrough;
    if Sequenced(fs) {
      var s := GetSeqno(fs).value;
      var g := Acked(f, s, now, cfg);
      AckedKeeps(f, s, now, cfg);
      XmitStill(g, now, cfg);
      XmitKeeps(g, now, cfg);
      var h := Xmit(g, now, cfg);
      AckTimeoutKeeps(h, 0, cfg);
      FsaStill(h.(e := h.e.(ackTimeout := 0)), OutAllDone, Some(fs), now, cfg);
    }
  }

  lemma ReceiveKeepsPlace<K>(f: Focus<K>, fs: FrameSet, now: nat, cfg: Config)
    requires Good(f, cfg) && Arrivable(fs) && f.e.inq.ready
    ensures var g := Receive(f, fs, now, cfg); g.e.inq.q != [] ==> g.ipend == f.ipend
  {
    hide Good, AlmostGood, MarkDue, Xmit, Fsa, File, ReceiveAck;
    if fs.fstype == ACK {
      ReceiveAckStill(f, fs, now, cfg);
    } else if fs.fstype == CONNNAK {
      FsaStill(f, GotConnNak, Some(fs), now, cfg);
    } else {
      var f1 := File(f, fs, now, cfg);
      FileKeeps(f, fs, now, cfg);
      FileShape(f, fs, now, cfg);
      Q.InqSortedMembers(f.e.inq, fs);
      MarkReadyKeeps(f1, fs, cfg);
      XmitStill(MarkReady(f1, fs), now, cfg);
    }
  }

  /** Only a read moves a connection that stays readable to another place in the list. */
  lemma StepKeepsPlace<K>(f: Focus<K>, op: Op, now: nat, cfg: Config)
    requires Good(f, cfg) && Enabled(f, op) && !op.Read? && f.e.inq.ready
    ensures var g := Step(f, op, now, cfg); g.e.inq.q != [] ==> g.ipend == f.ipend
  {
    hide Good, Send1, Receive, ReadHead, AckSeqno, Xmit, Fsa;
    match op
    case Send(fs) => Send1Still(f, fs, now, cfg);
    case Arrive(fs) => ReceiveKeepsPlace(f, fs, now, cfg);
    case ClientAck(s) => AckSeqnoEffect(f, s);
    case Tick => XmitStill(f, now, cfg);
    case CloseRequest => FsaStill(f, ReqShutdown, None, now, cfg);
    case ShutTimer => FsaStill(f, ShutTimedOut, None, now, cfg);
  }

  // ---------- Places ----------

  lemma SubsetSize<T>(a: set<T>, b: set<T>)
    requires a <= b
    ensures |a| <= |b| && (a != b ==> |a| < |b|)
  {
    assert b == a + (b - a);
  }

  /** In a list without repetitions, as many connections are ahead of an entry as its position says. */
  lemma {:induction false} AheadIsPosition<K>(list: seq<K>, p: nat)
    requires p < |list| && forall i, j :: 0 <= i < j < |list| ==> list[i] != list[j]
    ensures |Ahead(list, list[p])| == p
  {
    if p == 0 {
    } else {
      AheadIsPosition(list[1..], p - 1);
      AheadMembers(list[1..], list[p]);
    }
  }

  /** Other connections' operations bring nobody new in front of k. */
  lemma OrderKeptAhead<K>(a: seq<K>, b: seq<K>, i: K, k: K)
    requires OrderKept(a, b, i) && k in a && k != i
    ensures Ahead(b, k) <= Ahead(a, k) && k in b
  {
    hide Ahead;
    OthersListed(a, b, i, k);
    forall x | x in Ahead(b, k) ensures x in Ahead(a, k) {
      if x != i { assert x in Ahead(b, k) - {i}; }
    }
  }

  predicate NoFurther<K(==)>(h: Host<K>, g: Host<K>, k: K) {
    ReadableAt(g, k) ==> ReadableAt(h, k) && Ahead(g.ipend, k) <= Ahead(h.ipend, k)
  }

  lemma OnNoFurther<K(!new)>(h: Host<K>, j: K, op: Op, k: K, now: nat, cfg: Config)
    requires HostOk(h, cfg) && j in h.elems && Enabled(Of(h, j), op) && !op.Read?
    requires ReadableAt(h, k) || (op == Tick && k in h.elems)
    ensures NoFurther(h, On(h, j, op, now, cfg), k)
  {
    hide Good, Step, OrderKept, OthersStay, Ahead, Enabled, Q.Readable;
    var g := On(h, j, op, now, cfg);
    OnKeeps(h, j, op, now, cfg);
    if op == Tick {
      GoodAt(h, j, cfg);
      TickLeavesOthers(h, j, k, now, cfg);
    }
    if ReadableAt(h, k) && ReadableAt(g, k) {
      ReadableListed(h, k, cfg);
      if j == k {
        ReadableReady(h, k, cfg);
        StepKeepsPlace(Of(h, k), op, now, cfg);
        ReadableNonempty(g.elems[k].inq);
      } else {
        OrderKeptAhead(h.ipend, g.ipend, j, k);
      }
    }
  }

  lemma ReadableNonempty(u: Q.Queue)
    requires Q.Readable(u)
    ensures u.q != []
  {
  }

  lemma ReadableReady<K(!new)>(h: Host<K>, k: K, cfg: Config)
    requires HostOk(h, cfg) && ReadableAt(h, k)
    ensures h.elems[k].inq.ready
  {
    hide Chained, SentOk, Q.OutOk, Q.InOk, WindowOk, Q.FirstId;
    assert Good(Of(h, k), cfg);
  }

  lemma {:induction false} TickListNoFurther<K(!new)>(h: Host<K>, list: seq<K>, k: K, now: nat, cfg: Config)
    requires HostOk(h, cfg) && k in h.elems && forall j :: j in list ==> j in h.elems
    ensures Known(h) && NoFurther(h, TickList(h, list, now, cfg), k)
    decreases |list|
  {
    hide HostOk, On, Ahead, Q.Readable;
    OkKnown(h, cfg);
    if list == [] {
    } else {
      OnKeeps(h, list[0], Tick, now, cfg);
      OnNoFurther(h, list[0], Tick, k, now, cfg);
      TickListNoFurther(On(h, list[0], Tick, now, cfg), list[1..], k, now, cfg);
    }
  }

  /** Reading from a connection puts it behind all others that are listed. */
  lemma ReadGoesBehind<K>(f: Focus<K>, k: K, now: nat, cfg: Config)
    requires Good(f, cfg) && Q.Readable(f.e.inq) && k in f.ipend && k != f.me
    ensures Ahead(ReadHead(f, now, cfg).ipend, k) <= Ahead(f.ipend, k)
    ensures f.me !in Ahead(ReadHead(f, now, cfg).ipend, k)
  {
    hide Good, OrderKept, OthersStay, Ahead, Dequeue, ReadHead, Q.Readable;
    DequeueApart(f);
    OrderKeptAhead(f.ipend, Dequeue(f).ipend, f.me, k);
    DequeueBehind(f, k, cfg);
    ReadTailApart(f, now, cfg);
    OrderKeptAhead(Dequeue(f).ipend, ReadHead(f, now, cfg).ipend, f.me, k);
  }

  lemma OnReadList<K>(h: Host<K>, j: K, now: nat, cfg: Config)
    requires ReadableAt(h, j) && j in h.sents
    ensures On(h, j, Read, now, cfg).ipend == ReadHead(Of(h, j), now, cfg).ipend
  {
    hide ReadHead, Q.Readable;
  }

  lemma DequeueBehind<K>(f: Focus<K>, k: K, cfg: Config)
    requires Good(f, cfg) && Q.Readable(f.e.inq) && k in f.ipend && k != f.me
    ensures f.me !in Ahead(Dequeue(f).ipend, k)
  {
    hide Chained, SentOk, Q.OutOk, Q.InOk, WindowOk, Q.FirstId, Ahead, Q.Readable, Remove;
    var others := Remove(f.ipend, f.me);
    RemoveOne(f.ipend, f.me);
    AheadRemove(f.ipend, f.me, k);
    assert k in others by { assert multiset(others)[k] == multiset(f.ipend)[k]; }
    AheadAppend(others, [f.me], k);
  }

  lemma {:induction false} ReadFromNoFurther<K(!new)>(h: Host<K>, list: seq<K>, k: K, now: nat, cfg: Config)
    requires HostOk(h, cfg) && ReadableAt(h, k) && forall j :: j in list ==> j in h.elems
    ensures Known(h)
    ensures var (g, r) := ReadFrom(h, list, now, cfg);
            (r.Some? && r.value.0 == k) || (Ahead(g.ipend, k) <= Ahead(h.ipend, k)
                                          && (r.Some? ==> r.value.0 !in Ahead(g.ipend, k)))
    decreases |list|
  {
    hide HostOk, On, Ahead, Q.Readable;
    OkKnown(h, cfg);
    if list == [] {
    } else {
      var j := list[0];
      var u := h.elems[j].inq;
      if u.q == [] {
        ReadFromNoFurther(h, list[1..], k, now, cfg);
      } else if Q.Readable(u) {
        if j != k {
          GoodAt(h, j, cfg);
          ReadableListed(h, k, cfg);
          OnReadList(h, j, now, cfg);
          ReadGoesBehind(Of(h, j), k, now, cfg);
        }
      } else {
        OnKeeps(h, j, Tick, now, cfg);
        GoodAt(h, j, cfg);
        TickLeavesOthers(h, j, k, now, cfg);
        OnNoFurther(h, j, Tick, k, now, cfg);
        ReadFromNoFurther(On(h, j, Tick, now, cfg), list[1..], k, now, cfg);
      }
    }
  }

  lemma {:induction false} EarlierIsAhead<K>(list: seq<K>, i: nat, k: K)
    requires i < |list| && forall j :: 0 <= j <= i ==> list[j] != k
    ensures list[i] in Ahead(list, k)
  {
    if i == 0 {
    } else {
      EarlierIsAhead(list[1..], i - 1, k);
    }
  }

  /** A read either serves k, or serves one that was ahead of it and now is not. */
  lemma ReadBringsNearer<K(!new)>(h: Host<K>, k: K, now: nat, cfg: Config)
    requires HostOk(h, cfg) && ReadableAt(h, k)
    ensures var (g, r) := ReadFrom(h, h.ipend, now, cfg);
            && r.Some?
            && (r.value.0 != k ==> Ahead(g.ipend, k) < Ahead(h.ipend, k))
  {
    hide Good, On, Ahead, ReadFrom;
    var (g, r) := ReadFrom(h, h.ipend, now, cfg);
    ReadIffReadable(h, now, cfg);
    ReadFromFinds(h, h.ipend, now, cfg);
    ReadFromNoFurther(h, h.ipend, k, now, cfg);
    var i :| ServedAt(h, h.ipend, i, r.value);
    if r.value.0 != k {
      EarlierIsAhead(h.ipend, i, k);
    }
  }

  // ---------- Runs ----------

  datatype HostEvent<K> = HostEvent(op: HostOp<K>, now: nat)

  ghost predicate Runs<K(!new)>(h: Host<K>, events: seq<HostEvent<K>>, cfg: Config)
    decreases |events|
  {
    HostOk(h, cfg) &&
    (events != [] ==>
       HostEnabled(h, events[0].op) && Runs(HostStep(h, events[0].op, events[0].now, cfg), events[1..], cfg))
  }

  /** This event is a read that hands out k's head. */
  ghost predicate Serves<K(!new)>(h: Host<K>, event: HostEvent<K>, k: K, cfg: Config)
    requires HostOk(h, cfg)
  {
    event.op.Reading? && var r := ReadFrom(h, h.ipend, event.now, cfg).1; r.Some? && r.value.0 == k
  }

  /** k has a readable head at every moment until it is served. */
  ghost predicate Waits<K(!new)>(h: Host<K>, events: seq<HostEvent<K>>, k: K, cfg: Config)
    requires Runs(h, events, cfg)
    decreases |events|
  {
    ReadableAt(h, k) &&
    (events != [] && !Serves(h, events[0], k, cfg) ==>
       Waits(HostStep(h, events[0].op, events[0].now, cfg), events[1..], k, cfg))
  }

  function Reads<K>(events: seq<HostEvent<K>>): nat {
    if events == [] then 0 else (if events[0].op.Reading? then 1 else 0) + Reads(events[1..])
  }

  /** Some event among those up to the n-th read serves k; every read before it hands out something. */
  ghost predicate ServedWithin<K(!new)>(h: Host<K>, events: seq<HostEvent<K>>, k: K, n: nat, cfg: Config)
    requires Runs(h, events, cfg)
    decreases |events|
  {
    && events != []
    && (events[0].op.Reading? ==> n > 0 && ReadFrom(h, h.ipend, events[0].now, cfg).1.Some?)
    && (Serves(h, events[0], k, cfg) ||
        ServedWithin(HostStep(h, events[0].op, events[0].now, cfg), events[1..], k,
                     if events[0].op.Reading? then n - 1 else n, cfg))
  }

  /** One event that does not serve k leaves nobody new ahead of it, and one fewer if it is a read. */
  lemma EventNoFurther<K(!new)>(h: Host<K>, event: HostEvent<K>, k: K, cfg: Config)
    requires HostOk(h, cfg) && HostEnabled(h, event.op) && ReadableAt(h, k) && !Serves(h, event, k, cfg)
    requires ReadableAt(HostStep(h, event.op, event.now, cfg), k)
    ensures var g := HostStep(h, event.op, event.now, cfg);
            && |Ahead(g.ipend, k)| <= |Ahead(h.ipend, k)|
            && (event.op.Reading? ==> |Ahead(g.ipend, k)| < |Ahead(h.ipend, k)|
                                      && ReadFrom(h, h.ipend, event.now, cfg).1.Some?)
  {
    hide Good, On, Ahead, Destroy, Q.Readable;
    var g := HostStep(h, event.op, event.now, cfg);
    EventSubset(h, event, k, cfg);
    SubsetSize(Ahead(g.ipend, k), Ahead(h.ipend, k));
  }

  lemma EventSubset<K(!new)>(h: Host<K>, event: HostEvent<K>, k: K, cfg: Config)
    requires HostOk(h, cfg) && HostEnabled(h, event.op) && ReadableAt(h, k) && !Serves(h, event, k, cfg)
    requires ReadableAt(HostStep(h, event.op, event.now, cfg), k)
    ensures var g := HostStep(h, event.op, event.now, cfg);
            && Ahead(g.ipend, k) <= Ahead(h.ipend, k)
            && (event.op.Reading? ==> Ahead(g.ipend, k) < Ahead(h.ipend, k)
                                      && ReadFrom(h, h.ipend, event.now, cfg).1.Some?)
  {
    hide Good, On, Ahead, Q.Readable, OrderKept;
    match event.op
    case Receiving(j, qid, fs) =>
      AddConnKeeps(h, j, qid, cfg);
      OnNoFurther(AddConn(h, j, qid, cfg), j, Arrive(fs), k, event.now, cfg);
    case Sending(j, qid, fs) =>
      AddConnKeeps(h, j, qid, cfg);
      OnNoFurther(AddConn(h, j, qid, cfg), j, Send(fs), k, event.now, cfg);
    case Acting(j, o) => OnNoFurther(h, j, o, k, event.now, cfg);
    case Reading => ReadBringsNearer(h, k, event.now, cfg);
    case Ticking => TickListNoFurther(h, h.unacked, k, event.now, cfg);
    case Destroying(j) =>
      ReadableListed(h, k, cfg);
      ReinitApart(Of(h, j));
      OrderKeptAhead(h.ipend, Reinit(Of(h, j)).ipend, j, k);
  }

  /** A connection with p others ahead of it in the list, whose head stays readable, is served by the (p + 1)-th
      successful read at the latest, whatever else happens in between. */
  lemma {:induction false} Fair<K(!new)>(h: Host<K>, events: seq<HostEvent<K>>, k: K, cfg: Config)
    requires Runs(h, events, cfg) && Waits(h, events, k, cfg)
    requires Reads(events) > |Ahead(h.ipend, k)|
    ensures ServedWithin(h, events, k, |Ahead(h.ipend, k)| + 1, cfg)
    decreases |events|
  {
    hide HostOk, HostStep, HostEnabled, Ahead, ReadFrom, ReadableAt;
    if Serves(h, events[0], k, cfg) {
    } else {
      var g := HostStep(h, events[0].op, events[0].now, cfg);
      WaitsOn(g, events[1..], k, cfg);
      EventNoFurther(h, events[0], k, cfg);
      Fair(g, events[1..], k, cfg);
      var n := if events[0].op.Reading? then |Ahead(h.ipend, k)| else |Ahead(h.ipend, k)| + 1;
      ServedWithinMore(g, events[1..], k, |Ahead(g.ipend, k)| + 1, n, cfg);
    }
  }

  lemma WaitsOn<K(!new)>(h: Host<K>, events: seq<HostEvent<K>>, k: K, cfg: Config)
    requires Runs(h, events, cfg) && Waits(h, events, k, cfg)
    ensures ReadableAt(h, k)
  {
    hide HostOk, HostStep, HostEnabled, ReadFrom;
  }

  lemma {:induction false} ServedWithinMore<K(!new)>(h: Host<K>, events: seq<HostEvent<K>>, k: K, n: nat, more: nat,
          cfg: Config)
    requires Runs(h, events, cfg) && ServedWithin(h, events, k, n, cfg) && n <= more
    ensures ServedWithin(h, events, k, more, cfg)
    decreases |events|
  {
    hide HostOk, HostStep, HostEnabled, ReadFrom;
    if Serves(h, events[0], k, cfg) {
    } else {
      ServedWithinMore(HostStep(h, events[0].op, events[0].now, cfg), events[1..], k,
                       if events[0].op.Reading? then n - 1 else n,
                       if events[0].op.Reading? then more - 1 else more, cfg);
    }
  }
}
