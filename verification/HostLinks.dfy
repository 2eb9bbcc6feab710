/** The two-endpoint theorems hold inside processes that have other connections: whatever such a process does is, seen
    from one of its connections, a run of turns. */
module HostLinks {
  import opened FrameSets
  import opened FsProtocolSpec
  import opened FsProtocolInvariants
  import opened Connection
  import opened Neighbours
  import opened Host
  import opened Trails
  import opened Delivery
  import Q = FsQueueSpec

  function ConfigOf(side: Side, cs: Config, cr: Config): Config {
    if side == Sender then cs else cr
  }

  /** One end of the link is the connection k of this process. */
  ghost predicate Hosts<K(!new)>(h: Host<K>, k: K, l: Link<K>, side: Side, cs: Config, cr: Config) {
    HostOk(h, ConfigOf(side, cs, cr)) && k in h.elems && End(l, side) == Of(h, k)
  }

  /** A turn in which only this end takes part. */
  predicate OnSide<K>(t: Turn<K>, side: Side) {
    (t.Own? && t.m.side == side) || (t.Others? && t.side == side)
  }

  lemma SendsToOthers<K>(f: Focus<K>, g: Focus<K>, k: K)
    requires Sends(f, g) && k != f.me
    ensures forall p :: p in f.wire && p.dest == k ==> p in g.wire
    ensures forall p :: p in g.wire && p.dest == k ==> p in f.wire
  {
  }

  /** An operation on another connection leaves k alone. */
  lemma OnOthers<K(!new)>(h: Host<K>, j: K, op: Op, now: nat, k: K, cfg: Config)
    requires HostOk(h, cfg) && j in h.elems && k in h.elems && j != k && Enabled(Of(h, j), op)
    ensures var g := On(h, j, op, now, cfg);
            && k in g.elems && k in g.sents
            && Untouched(Of(h, k), g.ipend, g.unacked, g.wire)
            && Of(g, k) == Shared(Of(h, k), g.ipend, g.unacked, g.wire)
  {
    hide HostOk, OrderKept, OthersStay, Sends, Step, Enabled;
    OnKeeps(h, j, op, now, cfg);
    GoodAt(h, j, cfg);
    var f, g := Of(h, j), Step(Of(h, j), op, now, cfg);
    OthersInLists(f, g, k);
    SendsToOthers(f, g, k);
    OkKnown(h, cfg);
  }

  lemma OthersInLists<K>(f: Focus<K>, g: Focus<K>, k: K)
    requires Apart(f, g) && k != f.me
    ensures multiset(f.ipend)[k] == multiset(g.ipend)[k] && multiset(f.unacked)[k] == multiset(g.unacked)[k]
  {
    hide OthersStay;
    OthersListed(f.ipend, g.ipend, f.me, k);
    OthersListed(f.unacked, g.unacked, f.me, k);
  }

  /** An operation on any connection of the process is a turn of the link. */
  lemma OnTurn<K(!new)>(h: Host<K>, j: K, op: Op, now: nat, k: K, l: Link<K>, side: Side, cs: Config, cr: Config)
    returns (t: Turn<K>)
    requires Hosts(h, k, l, side, cs, cr) && j in h.elems && Enabled(Of(h, j), op)
    requires j == k ==> MoveOk(l, Move(side, op, now))
    ensures TurnOk(l, t) && OnSide(t, side)
    ensures var g := On(h, j, op, now, ConfigOf(side, cs, cr));
            Hosts(g, k, Take(l, t, cs, cr), side, cs, cr) && g.elems.Keys == h.elems.Keys && Known(g)
  {
    hide HostOk, Good, OrderKept, OthersStay, Sends, Step, Enabled, Untouched, HeldAfter, HandedOut, FromNetwork;
    hide HonestOp;
    var cfg := ConfigOf(side, cs, cr);
    OnKeeps(h, j, op, now, cfg);
    OkKnown(h, cfg);
    var g := On(h, j, op, now, cfg);
    if j == k {
      t := Own(Move(side, op, now));
    } else {
      t := Others(side, g.ipend, g.unacked, g.wire);
      OnOthers(h, j, op, now, k, cfg);
    }
  }

  /** A turn before a run is a run. */
  lemma TurnFirst<K>(l: Link<K>, t: Turn<K>, rest: seq<Turn<K>>, cs: Config, cr: Config)
    requires TurnOk(l, t) && TurnsOk(Take(l, t, cs, cr), rest, cs, cr)
    ensures TurnsOk(l, [t] + rest, cs, cr) && Run(l, [t] + rest, cs, cr) == Run(Take(l, t, cs, cr), rest, cs, cr)
  {
    hide TurnOk, Take;
    assert ([t] + rest)[1..] == rest;
  }

  /** The retransmit timer goes over the connections; for k that is a tick of its own among work of others. */
  lemma {:induction false} TickListTurns<K(!new)>(h: Host<K>, list: seq<K>, now: nat, k: K, l: Link<K>, side: Side,
          cs: Config, cr: Config)
    returns (turns: seq<Turn<K>>)
    requires Hosts(h, k, l, side, cs, cr) && Known(h) && forall j :: j in list ==> j in h.elems
    ensures TurnsOk(l, turns, cs, cr) && forall t :: t in turns ==> OnSide(t, side)
    ensures Hosts(TickList(h, list, now, ConfigOf(side, cs, cr)), k, Run(l, turns, cs, cr), side, cs, cr)
    decreases |list|
  {
    hide Hosts, On, TurnOk, Take, HostOk;
    turns := [];
    if list == [] {
    } else {
      var cfg := ConfigOf(side, cs, cr);
      IdleMove(h, list[0], Tick, now, k, l, side, cs, cr);
      var t := OnTurn(h, list[0], Tick, now, k, l, side, cs, cr);
      var rest := TickListTurns(On(h, list[0], Tick, now, cfg), list[1..], now, k, Take(l, t, cs, cr), side, cs, cr);
      TurnFirst(l, t, rest, cs, cr);
      turns := [t] + rest;
    }
  }

  /** A tick, or a read when the head is readable, needs nothing from the peer. */
  lemma IdleMove<K(!new)>(h: Host<K>, j: K, op: Op, now: nat, k: K, l: Link<K>, side: Side, cs: Config, cr: Config)
    requires Hosts(h, k, l, side, cs, cr) && Known(h) && j in h.elems && Enabled(Of(h, j), op) && (op.Tick? || op.Read?)
    ensures j == k ==> MoveOk(l, Move(side, op, now))
  {
    hide HostOk;
  }

  /** A read goes over the readable connections; for k that is nothing, a tick or a read, among work of others. */
  lemma {:induction false} ReadFromTurns<K(!new)>(h: Host<K>, list: seq<K>, now: nat, k: K, l: Link<K>, side: Side,
          cs: Config, cr: Config)
    returns (turns: seq<Turn<K>>)
    requires Hosts(h, k, l, side, cs, cr) && Known(h) && forall j :: j in list ==> j in h.elems
    ensures TurnsOk(l, turns, cs, cr) && forall t :: t in turns ==> OnSide(t, side)
    ensures Hosts(ReadFrom(h, list, now, ConfigOf(side, cs, cr)).0, k, Run(l, turns, cs, cr), side, cs, cr)
    decreases |list|
  {
    hide Hosts, On, TurnOk, Take, HostOk, Q.Readable;
    turns := [];
    if list == [] {
    } else if h.elems[list[0]].inq.q == [] {
      turns := ReadFromTurns(h, list[1..], now, k, l, side, cs, cr);
    } else {
      var cfg := ConfigOf(side, cs, cr);
      var readable := Q.Readable(h.elems[list[0]].inq);
      var op := if readable then Read else Tick;
      IdleMove(h, list[0], op, now, k, l, side, cs, cr);
      var t := OnTurn(h, list[0], op, now, k, l, side, cs, cr);
      var rest := [];
      if !readable {
        rest := ReadFromTurns(On(h, list[0], op, now, cfg), list[1..], now, k, Take(l, t, cs, cr), side, cs, cr);
      }
      TurnFirst(l, t, rest, cs, cr);
      turns := [t] + rest;
    }
  }

  lemma AddConnHosts<K(!new)>(h: Host<K>, j: K, qid: nat, k: K, l: Link<K>, side: Side, cs: Config, cr: Config)
    requires Hosts(h, k, l, side, cs, cr)
    ensures Hosts(AddConn(h, j, qid, ConfigOf(side, cs, cr)), k, l, side, cs, cr)
  {
    hide HostOk;
    OkKnown(h, ConfigOf(side, cs, cr));
    AddConnKeeps(h, j, qid, ConfigOf(side, cs, cr));
  }

  /** Destroying another connection is work of others. */
  lemma DestroyTurn<K(!new)>(h: Host<K>, j: K, k: K, l: Link<K>, side: Side, cs: Config, cr: Config)
    returns (t: Turn<K>)
    requires Hosts(h, k, l, side, cs, cr) && j in h.elems && j in h.sents && j != k && !Dangles(h.elems[j])
    ensures TurnOk(l, t) && OnSide(t, side)
    ensures Hosts(Destroy(h, j), k, Take(l, t, cs, cr), side, cs, cr)
  {
    hide HostOk, Reinit, OrderKept, OthersStay, Sends, Dangles;
    var g := Destroy(h, j);
    t := Others(side, g.ipend, g.unacked, g.wire);
    DestroyKeeps(h, j, ConfigOf(side, cs, cr));
    ReinitApart(Of(h, j));
    OthersInLists(Of(h, j), Reinit(Of(h, j)), k);
    SendsToOthers(Of(h, j), Reinit(Of(h, j)), k);
    OkKnown(h, ConfigOf(side, cs, cr));
  }

  /** Destroying k and making it again is a new life of the connection, save that the process's record of packets also
      holds those of the earlier life, which the link keeps apart. */
  lemma DestroyRenews<K(!new)>(h: Host<K>, k: K, qid: nat, l: Link<K>, cs: Config, cr: Config) returns (t: Turn<K>)
    requires Hosts(h, k, l, Receiver, cs, cr) && k in h.sents && !Dangles(h.elems[k])
    ensures TurnOk(l, t) && t.Renew?
    ensures var g, r := AddConn(Destroy(h, k), k, qid, cr), Take(l, t, cs, cr);
            && k in g.elems && k in g.sents
            && r.rcv == Of(g, k).(wire := []) && r.past == l.past + g.wire && r.snd == l.snd
  {
    hide HostOk, Reinit, Dangles;
    var g := AddConn(Destroy(h, k), k, qid, cr);
    DestroyDangles(h, k, cr);
    assert Reinit(Of(h, k)).wire == h.wire by { ReinitWire(Of(h, k)); }
    t := Renew(g.ipend, g.unacked, qid);
  }

  lemma ReinitWire<K>(f: Focus<K>)
    ensures Reinit(f).wire == f.wire
  {
    hide Remove;
  }

  /** The moves that an operation of the process asks of k itself can be made. */
  ghost predicate Asked<K>(op: HostOp<K>, now: nat, k: K, l: Link<K>, side: Side) {
    match op
    case Receiving(j, _, fs) => j == k ==> MoveOk(l, Move(side, Arrive(fs), now))
    case Acting(j, o) => j == k ==> MoveOk(l, Move(side, o, now))
    case Destroying(j) => j != k
    case _ => true
  }

  /** One operation on j, which is there or has just been made, is a single turn. */
  lemma OneTurn<K(!new)>(h: Host<K>, j: K, op: Op, now: nat, k: K, l: Link<K>, side: Side, cs: Config, cr: Config)
    returns (turns: seq<Turn<K>>)
    requires Hosts(h, k, l, side, cs, cr) && Known(h) && j in h.elems && Enabled(Of(h, j), op)
    requires j == k ==> MoveOk(l, Move(side, op, now))
    ensures TurnsOk(l, turns, cs, cr) && forall t :: t in turns ==> OnSide(t, side)
    ensures Hosts(On(h, j, op, now, ConfigOf(side, cs, cr)), k, Run(l, turns, cs, cr), side, cs, cr)
  {
    hide Hosts, On, MoveOk, TurnOk, Take, Enabled;
    var t := OnTurn(h, j, op, now, k, l, side, cs, cr);
    TurnFirst(l, t, [], cs, cr);
    turns := [t] + [];
  }

  /** Whatever a process does, short of destroying k, is a run of turns for a link that has k at one end. */
  lemma HostStepIsTurns<K(!new)>(h: Host<K>, op: HostOp<K>, now: nat, k: K, l: Link<K>, side: Side, cs: Config,
          cr: Config)
    returns (turns: seq<Turn<K>>)
    requires Hosts(h, k, l, side, cs, cr) && HostOk(h, ConfigOf(side, cs, cr)) && HostEnabled(h, op)
            && Asked(op, now, k, l, side)
    ensures TurnsOk(l, turns, cs, cr) && forall t :: t in turns ==> OnSide(t, side)
    ensures Hosts(HostStep(h, op, now, ConfigOf(side, cs, cr)), k, Run(l, turns, cs, cr), side, cs, cr)
  {
    hide Hosts, HostOk, On, Destroy, TurnOk, Take, Run, TurnsOk, Dangles, MoveOk;
    var cfg := ConfigOf(side, cs, cr);
    OkKnown(h, cfg);
    match op
    case Receiving(j, qid, fs) =>
      AddConnHosts(h, j, qid, k, l, side, cs, cr);
      turns := OneTurn(AddConn(h, j, qid, cfg), j, Arrive(fs), now, k, l, side, cs, cr);
    case Sending(j, qid, fs) =>
      AddConnHosts(h, j, qid, k, l, side, cs, cr);
      SendMove(AddConn(h, j, qid, cfg), fs, now, k, l, side, cs, cr);
      turns := OneTurn(AddConn(h, j, qid, cfg), j, Send(fs), now, k, l, side, cs, cr);
    case Acting(j, o) => turns := OneTurn(h, j, o, now, k, l, side, cs, cr);
    case Reading =>
      ListsKnown(h, cfg);
      turns := ReadFromTurns(h, h.ipend, now, k, l, side, cs, cr);
    case Ticking =>
      ListsKnown(h, cfg);
      turns := TickListTurns(h, h.unacked, now, k, l, side, cs, cr);
    case Destroying(j) =>
      var t := DestroyTurn(h, j, k, l, side, cs, cr);
      assert TurnsOk(Take(l, t, cs, cr), [], cs, cr) && Run(Take(l, t, cs, cr), [], cs, cr) == Take(l, t, cs, cr) by {
        NoTurns(Take(l, t, cs, cr), cs, cr);
      }
      TurnFirst(l, t, [], cs, cr);
      turns := [t] + [];
  }

  lemma NoTurns<K>(l: Link<K>, cs: Config, cr: Config)
    ensures TurnsOk(l, [], cs, cr) && Run(l, [], cs, cr) == l
  {
  }

  lemma SendMove<K(!new)>(h: Host<K>, fs: FrameSet, now: nat, k: K, l: Link<K>, side: Side, cs: Config, cr: Config)
    requires Hosts(h, k, l, side, cs, cr) && ClientFrame(fs)
    ensures MoveOk(l, Move(side, Send(fs), now))
  {
    hide HostOk;
  }

  lemma ListsKnown<K(!new)>(h: Host<K>, cfg: Config)
    requires HostOk(h, cfg)
    ensures forall j :: j in h.ipend ==> j in h.elems
    ensures forall j :: j in h.unacked ==> j in h.elems
  {
    hide Good;
  }
}
