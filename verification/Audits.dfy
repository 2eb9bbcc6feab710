/** The run-time audits of an FsProtocol: what they can ever complain about. */
module Audits {
  import opened FrameSets
  import opened FsProtocolSpec
  import opened FsProtocolInvariants
  import opened ReadyMarks
  import opened Host
  import Q = FsQueueSpec

  /** What the per-connection audit accepts. */
  predicate FspeClean<K(==)>(f: Focus<K>) {
    && (f.e.outq.q != [] ==> f.me in f.unacked)
    && (f.e.outq.q == [] ==> f.me !in f.unacked)
  }

  /** The per-connection audit never finds the unacknowledged list and an output queue at odds. */
  lemma FspeAlwaysClean<K(!new)>(h: Host<K>, k: K, cfg: Config)
    requires HostOk(h, cfg) && k in h.elems
    ensures FspeClean(Of(h, k))
  {
    hide Chained, SentOk, Q.OutOk, Q.InOk, WindowOk, Q.FirstId, Q.Readable;
    assert Good(Of(h, k), cfg);
  }

  ghost function ReadyAmong<K(!new)>(h: Host<K>, keys: set<K>): set<K>
    requires keys <= h.elems.Keys
  {
    set k | k in keys && h.elems[k].inq.ready
  }

  ghost function ReadableAmong<K(!new)>(h: Host<K>, keys: set<K>): set<K>
    requires keys <= h.elems.Keys
  {
    set k | k in keys && Q.Readable(h.elems[k].inq)
  }

  /** A list that names each member of a set once is as long as the set is large. */
  lemma {:induction false} OncePerMember<K(!new)>(list: seq<K>, s: set<K>)
    requires forall k :: multiset(list)[k] == if k in s then 1 else 0
    ensures |list| == |s|
  {
    if list == [] {
      forall k ensures k !in s { assert multiset(list)[k] == 0; }
    } else {
      assert list == [list[0]] + list[1..];
      assert multiset(list)[list[0]] == 1;
      OncePerMember(list[1..], s - {list[0]});
    }
  }

  lemma PendingAreReady<K(!new)>(h: Host<K>, cfg: Config)
    requires HostOk(h, cfg)
    ensures |h.ipend| == |ReadyAmong(h, h.elems.Keys)|
    ensures ReadableAmong(h, h.elems.Keys) <= ReadyAmong(h, h.elems.Keys)
  {
    hide Chained, SentOk, Q.OutOk, Q.InOk, WindowOk, Q.FirstId, Q.Readable;
    forall k ensures multiset(h.ipend)[k] == if k in ReadyAmong(h, h.elems.Keys) then 1 else 0 {
      if k in h.elems { assert Good(Of(h, k), cfg); } else { assert k !in h.ipend; }
    }
    OncePerMember(h.ipend, ReadyAmong(h, h.elems.Keys));
    forall k | k in ReadableAmong(h, h.elems.Keys) ensures k in ReadyAmong(h, h.elems.Keys) {
      assert Good(Of(h, k), cfg);
    }
  }

  /** The per-connection half of the audit finds nothing; it does not look at empty queues. */
  ghost predicate QuietAmong<K(!new)>(h: Host<K>, keys: set<K>)
    requires keys <= h.elems.Keys
  {
    forall k :: k in keys && h.elems[k].inq.q != [] ==> Exact(h.elems[k].inq)
  }

  lemma NoneReadable<K(!new)>(h: Host<K>)
    ensures ReadableAmong(h, {}) == {} && QuietAmong(h, {})
  {
  }

  lemma OneMoreReadable<K(!new)>(h: Host<K>, keys: set<K>, k: K)
    requires keys <= h.elems.Keys && k in h.elems && k !in keys
    ensures |ReadableAmong(h, keys + {k})| ==
            |ReadableAmong(h, keys)| + if Q.Readable(h.elems[k].inq) then 1 else 0
    ensures QuietAmong(h, keys + {k}) <==>
            QuietAmong(h, keys) && (h.elems[k].inq.q != [] ==> Exact(h.elems[k].inq))
  {
    hide Q.Readable;
    assert ReadableAmong(h, keys + {k}) ==
           ReadableAmong(h, keys) + if Q.Readable(h.elems[k].inq) then {k} else {};
  }

  /** The audit of the readable list, in whatever order the table yields the connections. It stays silent exactly
      when every connection is marked ready if and only if its head can be handed out. */
  method AuditIready<K(==, !new)>(h: Host<K>, ghost cfg: Config) returns (complaints: nat)
    requires HostOk(h, cfg)
    ensures complaints == 0 <==> forall k :: k in h.elems ==> Exact(h.elems[k].inq)
  {
    hide HostOk, Known, ReadableAmong, ReadyAmong, QuietAmong;
    var todo := h.elems.Keys;
    NoneReadable(h);
    ghost var seen: set<K> := {};
    var hashcount := 0;
    complaints := 0;
    while todo != {}
      invariant seen + todo == h.elems.Keys && seen !! todo
      invariant hashcount == |ReadableAmong(h, seen)|
      invariant complaints == 0 <==> QuietAmong(h, seen)
      decreases |todo|
    {
      var k :| k in todo;
      var iq := h.elems[k].inq;
      OneMoreReadable(h, seen, k);
      todo, seen := todo - {k}, seen + {k};
      if iq.q != [] && (!Sequenced(iq.q[0]) || GetSeqno(iq.q[0]).value.reqid == iq.next) {
        hashcount := hashcount + 1;
        if !iq.ready { complaints := complaints + 1; }
      } else if iq.q != [] && iq.ready {
        complaints := complaints + 1;
      }
    }
    PendingAreReady(h, cfg);
    CountsAgree(h, cfg);
    assert seen == h.elems.Keys;
    if |h.ipend| != hashcount { complaints := complaints + 1; }
  }

  /** As many connections are readable as are marked ready exactly when every mark is right. */
  lemma CountsAgree<K(!new)>(h: Host<K>, cfg: Config)
    requires HostOk(h, cfg)
    ensures |ReadableAmong(h, h.elems.Keys)| == |ReadyAmong(h, h.elems.Keys)| <==>
            forall k :: k in h.elems ==> Exact(h.elems[k].inq)
    ensures (forall k :: k in h.elems ==> Exact(h.elems[k].inq)) ==> QuietAmong(h, h.elems.Keys)
  {
    hide Good, Q.Readable;
    var a, b := ReadableAmong(h, h.elems.Keys), ReadyAmong(h, h.elems.Keys);
    PendingAreReady(h, cfg);
    assert b == a + (b - a);
    if a == b {
      forall k | k in h.elems ensures Exact(h.elems[k].inq) {
        assert k in a <==> k in b;
      }
    } else {
      var k :| k in b - a;
      assert !Exact(h.elems[k].inq);
    }
  }
}
