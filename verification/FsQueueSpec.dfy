/** The FsQueue operations as functions on queue values. */
module FsQueueSpec {
  import opened FrameSets

  /** The fields of an FsQueue that its operations read or write. */
  datatype Queue = Queue(q: seq<FrameSet>, next: nat, session: nat, maxlen: nat, qid: nat, ready: bool)

  function Fresh(maxlen: nat, qid: nat): Queue {
    Queue([], 1, 0, maxlen, qid, false)
  }

  predicate Full(u: Queue) {
    u.maxlen != 0 && |u.q| >= u.maxlen
  }

  /** The frameset that the next successful Enq would append. */
  function Stamp(u: Queue, fs: FrameSet, processSession: nat): FrameSet {
    var session := if u.session == 0 then processSession else u.session;
    fs.(reqFrame := Some(Seqno(session, u.next, u.qid)))
  }

  /** Append to an output queue, giving the frameset its sequence number. */
  function Enq(u: Queue, fs: FrameSet, processSession: nat): (Queue, bool) {
    if Sequenced(fs) || Full(u) then (u, false)
    else
      var session := if u.session == 0 then processSession else u.session;
      (u.(q := u.q + [Stamp(u, fs, processSession)], next := u.next + 1, session := session), true)
  }

  /** A sequenced frameset goes after this queue entry. Unsequenced entries sort below everything. */
  predicate GoesAfter(s: Seqno, entry: FrameSet) {
    Sequenced(entry) ==> Compare(s, GetSeqno(entry).value) > 0
  }

  /** How many entries at the head of the queue are below a sequence number. */
  function Below(q: seq<FrameSet>, s: Seqno): (k: nat)
    ensures k <= |q|
    ensures forall i :: 0 <= i < k ==> GoesAfter(s, q[i])
    ensures k < |q| ==> !GoesAfter(s, q[k])
  {
    if q == [] || !GoesAfter(s, q[0]) then 0 else 1 + Below(q[1..], s)
  }

  /** Insert a sequenced frameset before the first entry above it; an entry with the same ids makes it a duplicate. */
  function InsertSorted(q: seq<FrameSet>, fs: FrameSet): seq<FrameSet>
    requires Sequenced(fs)
  {
    var k := Below(q, GetSeqno(fs).value);
    if k < |q| && Compare(GetSeqno(fs).value, GetSeqno(q[k]).value) == 0 then q
    else q[..k] + [fs] + q[k..]
  }

  /** A scan that has passed the first k entries knows what the insertion does from the entry it looks at. */
  lemma InsertPlace(q: seq<FrameSet>, fs: FrameSet, k: nat)
    requires Sequenced(fs) && k <= |q|
    requires forall i :: 0 <= i < k ==> GoesAfter(GetSeqno(fs).value, q[i])
    ensures k == |q| ==> InsertSorted(q, fs) == q + [fs]
    ensures k < |q| && Sequenced(q[k]) ==>
              var diff := Compare(GetSeqno(fs).value, GetSeqno(q[k]).value);
              && (diff < 0 ==> InsertSorted(q, fs) == q[..k] + [fs] + q[k..])
              && (diff == 0 ==> InsertSorted(q, fs) == q)
    ensures k < |q| ==>
              (GoesAfter(GetSeqno(fs).value, q[k]) <==>
               Sequenced(q[k]) ==> Compare(GetSeqno(fs).value, GetSeqno(q[k]).value) > 0)
  {
    hide Compare, GetSeqno;
    assert q[..|q|] + [fs] + q[|q|..] == q + [fs];
  }

  /** The session checks that a sequenced frameset meets: adopt a first one, drop an old one, move to a newer one. */
  function EnterSession(u: Queue, s: Seqno): Queue {
    if u.session == 0 then
      u.(session := s.session, next := if s.reqid >= 2 then s.reqid else u.next)
    else if s.session > u.session then
      u.(q := [], session := s.session, next := 1)
    else u
  }

  /** Put a received frameset in an input queue. */
  function InqSorted(u: Queue, fs: FrameSet): (Queue, bool) {
    match GetSeqno(fs)
    case None =>
      if Full(u) then (u, false) else (u.(q := [fs] + u.q), true)
    case Some(s) =>
      if u.session != 0 && s.session < u.session then (u, false)
      else
        var v := EnterSession(u, s);
        if s.reqid < v.next || Full(v) then (v, false)
        else (v.(q := InsertSorted(v.q, fs)), true)
  }

  /** How many framesets at the head an ACK through reqid removes. */
  function AckCount(q: seq<FrameSet>, reqid: nat): nat
    ensures AckCount(q, reqid) <= |q|
  {
    if q == [] then 0
    else if Sequenced(q[0]) && GetSeqno(q[0]).value.reqid > reqid then 0
    else 1 + AckCount(q[1..], reqid)
  }

  /** Acknowledge everything up to a sequence number; -1 for an ACK that does not apply. */
  function AckThrough(u: Queue, s: Seqno): (r: (Queue, int)) {
    if s.session != u.session || s.reqid >= u.next then (u, -1)
    else
      var n: int := AckCount(u.q, s.reqid);
      (u.(q := u.q[n..]), n)
  }

  function Flush(u: Queue): Queue {
    u.(q := [])
  }

  /** The head can be handed out: it has no sequence number, or the expected one. */
  predicate Readable(u: Queue) {
    u.q != [] && (Sequenced(u.q[0]) ==> GetSeqno(u.q[0]).value.reqid == u.next)
  }

  // ---------- Output queues ----------

  /** Within the limit; consecutive ids ending just before next, all in the queue's session, none before the first. */
  predicate OutOk(u: Queue) {
    && |u.q| < u.next
    && (u.maxlen != 0 ==> |u.q| <= u.maxlen)
    && (u.session == 0 ==> u.next == 1)
    && forall i :: 0 <= i < |u.q| ==>
         GetSeqno(u.q[i]) == Some(Seqno(u.session, u.next - |u.q| + i, u.qid))
  }

  /** The id of the oldest unacknowledged frameset (or the next id when there is none). */
  function FirstId(u: Queue): nat
    requires OutOk(u)
  {
    u.next - |u.q|
  }

  lemma EnqOut(u: Queue, fs: FrameSet, processSession: nat)
    requires OutOk(u) && processSession > 0 && fs.fstype >= MIN_SEQFRAMESET
    ensures var (v, ok) := Enq(u, fs, processSession);
            && OutOk(v)
            && (ok <==> fs.reqFrame.None? && !Full(u))
            && (ok ==> v.q == u.q + [Stamp(u, fs, processSession)] && v.session != 0)
            && (ok ==> FirstId(v) == FirstId(u))
            && (u.session != 0 ==> v.session == u.session)
  {
  }

  /** Enqueueing accepts exactly framesets without a sequence number while there is room, whatever their type; and it
      keeps the ids consecutive exactly if what it accepts is of a type that is looked at for sequence numbers. */
  lemma EnqKeepsIff(u: Queue, fs: FrameSet, processSession: nat)
    requires OutOk(u) && processSession > 0
    ensures var (v, ok) := Enq(u, fs, processSession);
            && (ok <==> !Sequenced(fs) && !Full(u))
            && (OutOk(v) <==> ok ==> fs.fstype >= MIN_SEQFRAMESET)
            && (!ok ==> v == u)
            && (ok ==> v.q == u.q + [Stamp(u, fs, processSession)] && v.next == u.next + 1 && v.session != 0)
            && (ok && u.session != 0 ==> v.session == u.session)
  {
    hide Full;
    var (v, ok) := Enq(u, fs, processSession);
    if ok {
      assert v.q[|u.q|] == Stamp(u, fs, processSession);
      if fs.fstype >= MIN_SEQFRAMESET { EnqOut(u, fs, processSession); }
    }
  }

  /** An ACK that applies removes exactly the framesets up to its id, and reports how many. */
  lemma {:induction false} AckCountIs(u: Queue, reqid: nat, n: nat)
    requires OutOk(u) && n <= |u.q|
    requires n == if reqid < FirstId(u) then 0 else reqid + 1 - FirstId(u)
    ensures AckCount(u.q, reqid) == n
  {
    AckCountFrom(u, reqid, n, 0);
    assert u.q[0..] == u.q;
  }

  lemma {:induction false} AckCountFrom(u: Queue, reqid: nat, n: nat, i: nat)
    requires OutOk(u) && i <= n <= |u.q|
    requires n == if reqid < FirstId(u) then 0 else reqid + 1 - FirstId(u)
    ensures AckCount(u.q[i..], reqid) == n - i
    decreases |u.q| - i
  {
    if i == |u.q| {
    } else {
      assert u.q[i..][0] == u.q[i];
      assert u.q[i..][1..] == u.q[i + 1..];
      if i < n {
        AckCountFrom(u, reqid, n, i + 1);
      }
    }
  }

  /** What an incoming ACK does to an output queue. */
  lemma AckThroughOut(u: Queue, s: Seqno)
    requires OutOk(u)
    ensures var (v, count) := AckThrough(u, s);
            && OutOk(v) && v.next == u.next && v.session == u.session && v.maxlen == u.maxlen
            && (count < 0 <==> s.session != u.session || s.reqid >= u.next)
            && (count < 0 ==> v == u)
            && (count >= 0 ==> count <= |u.q| && v.q == u.q[count..])
            && (count >= 0 ==> FirstId(v) == if s.reqid < FirstId(u) then FirstId(u) else s.reqid + 1)
  {
    if s.session == u.session && s.reqid < u.next {
      AckCountIs(u, s.reqid, if s.reqid < FirstId(u) then 0 else s.reqid + 1 - FirstId(u));
    }
  }

  // ---------- Input queues ----------

  /** A frameset's request id, or -1 for an unsequenced one, which belongs below every sequenced one. */
  function Height(fs: FrameSet): int {
    if Sequenced(fs) then GetSeqno(fs).value.reqid else -1
  }

  predicate InSession(q: seq<FrameSet>, session: nat) {
    forall i :: 0 <= i < |q| && Sequenced(q[i]) ==> GetSeqno(q[i]).value.session == session
  }

  /** Unsequenced framesets first, then strictly ascending request ids. */
  predicate Ascending(q: seq<FrameSet>) {
    forall i, j :: 0 <= i < j < |q| ==> Height(q[i]) == -1 || Height(q[i]) < Height(q[j])
  }

  /** Ascending, all in the queue's session, none below the next expected id. */
  predicate InOk(u: Queue) {
    && u.next >= 1
    && (u.session == 0 ==> u.next == 1)
    && InSession(u.q, u.session)
    && Ascending(u.q)
    && (forall i :: 0 <= i < |u.q| && Sequenced(u.q[i]) ==> u.session != 0 && Height(u.q[i]) >= u.next)
  }

  /** Some queued frameset already carries this request id. */
  predicate Queued(q: seq<FrameSet>, reqid: nat) {
    exists i :: 0 <= i < |q| && Height(q[i]) == reqid
  }

  /** Sorted insertion keeps the order. */
  lemma InsertKeepsOrder(q: seq<FrameSet>, fs: FrameSet, session: nat)
    requires Ascending(q) && InSession(q, session)
    requires Sequenced(fs) && GetSeqno(fs).value.session == session
    ensures Ascending(InsertSorted(q, fs))
  {
    hide Compare, GoesAfter, Height;
    var k := Below(q, GetSeqno(fs).value);
    forall i | 0 <= i < |q| && i != k
      ensures if i < k then Height(q[i]) < Height(fs) else Height(fs) < Height(q[i])
    {
      HeightOrders(fs, q[i]);
      if i > k {
        HeightOrders(fs, q[k]);
        assert Height(q[k]) == -1 || Height(q[k]) < Height(q[i]);
      }
    }
    if k < |q| { HeightOrders(fs, q[k]); }
  }

  /** Within a session, queue entries compare as their heights do. */
  lemma HeightOrders(fs: FrameSet, entry: FrameSet)
    requires Sequenced(fs)
    requires Sequenced(entry) ==> GetSeqno(entry).value.session == GetSeqno(fs).value.session
    ensures Height(fs) >= 0
    ensures GoesAfter(GetSeqno(fs).value, entry) <==> Height(entry) < Height(fs)
    ensures Sequenced(entry) ==>
              (Compare(GetSeqno(fs).value, GetSeqno(entry).value) == 0 <==> Height(entry) == Height(fs))
    ensures Height(entry) >= 0 <==> Sequenced(entry)
  {
  }

  /** Sorted insertion adds the frameset exactly when its id is new, and loses nothing. */
  lemma InsertContents(q: seq<FrameSet>, fs: FrameSet, session: nat)
    requires Ascending(q) && InSession(q, session)
    requires Sequenced(fs) && GetSeqno(fs).value.session == session
    ensures multiset(InsertSorted(q, fs)) == multiset(q) + if Queued(q, Height(fs)) then multiset{} else multiset{fs}
  {
    var h: nat := Height(fs);
    hide Compare, GoesAfter, Height;
    var k := Below(q, GetSeqno(fs).value);
    if k < |q| { HeightOrders(fs, q[k]); }
    if Queued(q, h) {
      var i :| 0 <= i < |q| && Height(q[i]) == h;
      HeightOrders(fs, q[i]);
      assert k <= i;
      assert k == i;
    } else {
      InsertAtContents(q, k, fs);
    }
  }

  lemma InsertAtContents(q: seq<FrameSet>, k: nat, fs: FrameSet)
    requires k <= |q|
    ensures multiset(q[..k] + [fs] + q[k..]) == multiset(q) + multiset{fs}
  {
    assert q == q[..k] + q[k..];
  }

  /** Every entry after a sorted insertion is the new frameset or an old entry; the head is new or unmoved. */
  lemma InsertMembers(q: seq<FrameSet>, fs: FrameSet)
    requires Sequenced(fs)
    ensures forall i :: 0 <= i < |InsertSorted(q, fs)| ==> InsertSorted(q, fs)[i] == fs || InsertSorted(q, fs)[i] in q
    ensures InsertSorted(q, fs) != []
    ensures InsertSorted(q, fs)[0] == fs || (q != [] && InsertSorted(q, fs)[0] == q[0])
  {
  }

  /** Entering a frameset's session leaves the queue in order, and empty if it is a new one. */
  lemma EnterSessionKeeps(u: Queue, s: Seqno)
    requires InOk(u) && s.session != 0
    requires u.session == 0 || s.session >= u.session
    ensures var w := EnterSession(u, s);
            && InOk(w) && w.session == s.session
            && (w.q == u.q || w.q == [])
            && w == u.(q := w.q, session := w.session, next := w.next)
  {
  }

  /** An input queue stays in order whatever arrives. */
  lemma InqSortedKeeps(u: Queue, fs: FrameSet)
    requires InOk(u)
    requires Sequenced(fs) ==> GetSeqno(fs).value.session != 0
    ensures InOk(InqSorted(u, fs).0)
  {
    var (v, ok) := InqSorted(u, fs);
    if Sequenced(fs) {
      var s := GetSeqno(fs).value;
      if u.session == 0 || s.session >= u.session {
        EnterSessionKeeps(u, s);
        if ok { InsertKeeps(EnterSession(u, s), fs); }
      }
    }
  }

  lemma InsertKeeps(w: Queue, fs: FrameSet)
    requires InOk(w) && w.session != 0
    requires Sequenced(fs) && GetSeqno(fs).value.session == w.session && Height(fs) >= w.next
    ensures InOk(w.(q := InsertSorted(w.q, fs)))
  {
    InsertKeepsOrder(w.q, fs, w.session);
    InsertMembers(w.q, fs);
  }

  /** Putting a frameset in an input queue adds nothing else, and touches neither the ready mark nor the limit. */
  lemma InqSortedMembers(u: Queue, fs: FrameSet)
    ensures var v := InqSorted(u, fs).0;
            && v == u.(q := v.q, next := v.next, session := v.session)
            && forall x :: x in v.q ==> x == fs || x in u.q
  {
    if Sequenced(fs) {
      InsertMembers(EnterSession(u, GetSeqno(fs).value).q, fs);
    }
  }
}
