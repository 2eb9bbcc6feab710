/** The FsQueue class: a queue of framesets updated in place. */
module FsQueues {
  import opened FrameSets
  import Spec = FsQueueSpec

  class FsQueue {
    var q: seq<FrameSet>
    var nextSeqno: nat
    var sessionId: nat
    var maxQlen: nat
    var isReady: bool
    const qid: nat

    function View(): Spec.Queue
      reads this
    {
      Spec.Queue(q, nextSeqno, sessionId, maxQlen, qid, isReady)
    }

    constructor (maxQlen: nat, qid: nat)
      ensures View() == Spec.Fresh(maxQlen, qid)
    {
      q := [];
      nextSeqno := 1;
      sessionId := 0;
      this.maxQlen := maxQlen;
      isReady := false;
      this.qid := qid;
    }

    method QHead() returns (head: Option<FrameSet>)
      ensures head == if q == [] then None else Some(q[0])
    {
      head := if q == [] then None else Some(q[0]);
    }

    /** Append to an output queue, adding a sequence number frame. */
    method Enq(fs: FrameSet, processSession: nat) returns (ok: bool)
      modifies this
      ensures (View(), ok) == Spec.Enq(old(View()), fs, processSession)
    {
      if GetSeqno(fs).Some? {
        return false;
      }
      if maxQlen != 0 && |q| >= maxQlen {
        return false;
      }
      var seqno := Seqno(processSession, nextSeqno, qid);
      nextSeqno := nextSeqno + 1;
      if sessionId == 0 {
        sessionId := seqno.session;
      } else {
        seqno := seqno.(session := sessionId);
      }
      q := q + [fs.(reqFrame := Some(seqno))];
      return true;
    }

    method Deq() returns (head: Option<FrameSet>)
      modifies this
      ensures old(q) == [] ==> head == None && View() == old(View())
      ensures old(q) != [] ==> head == Some(old(q[0])) && View() == old(View()).(q := old(q)[1..])
    {
      if q == [] {
        head := None;
      } else {
        head := Some(q[0]);
        q := q[1..];
      }
    }

    /** Put a received frameset in an input queue, sorted by sequence number, without duplicates. */
    method InqSorted(fs: FrameSet) returns (ok: bool)
      modifies this
      ensures (View(), ok) == Spec.InqSorted(old(View()), fs)
    {
      var seqno := GetSeqno(fs);
      if seqno.Some? {
        var s := seqno.value;
        if sessionId == 0 {
          sessionId := s.session;
          if s.reqid >= 2 {
            nextSeqno := s.reqid;
          }
        } else if s.session < sessionId {
          return false;
        } else if s.session > sessionId {
          Flush();
          sessionId := s.session;
          nextSeqno := 1;
        }
        if s.reqid < nextSeqno {
          return false;
        }
      }
      if maxQlen != 0 && |q| >= maxQlen {
        return false;
      }
      if seqno.None? {
        q := [fs] + q;
        return true;
      }
      SortIn(fs);
      return true;
    }

    /** The scan that ends InqSorted: before the first entry above fs, at the end, or nowhere if fs is there already. */
    method SortIn(fs: FrameSet)
      requires Sequenced(fs)
      modifies this
      ensures View() == old(View()).(q := Spec.InsertSorted(old(q), fs))
    {
      hide Compare, Spec.InsertSorted;
      var seqno := GetSeqno(fs);
      var k := 0;
      while k < |q|
        invariant 0 <= k <= |q| && View() == old(View())
        invariant forall i :: 0 <= i < k ==> Spec.GoesAfter(seqno.value, q[i])
      {
        Spec.InsertPlace(q, fs, k);
        var thisSeq := GetSeqno(q[k]);
        if thisSeq.Some? {
          var diff := Compare(seqno.value, thisSeq.value);
          if diff < 0 {
            q := q[..k] + [fs] + q[k..];
            return;
          } else if diff == 0 {
            return;
          }
        }
        k := k + 1;
      }
      Spec.InsertPlace(q, fs, |q|);
      q := q + [fs];
    }

    /** Remove everything acknowledged by s; -1 when the ACK does not apply to this queue. */
    method AckThrough(s: Seqno) returns (count: int)
      modifies this
      ensures (View(), count) == Spec.AckThrough(old(View()), s)
    {
      if s.session != sessionId {
        return -1;
      }
      if s.reqid >= nextSeqno {
        return -1;
      }
      count := 0;
      var head := QHead();
      while head.Some?
        invariant 0 <= count <= |old(q)|
        invariant View() == old(View()).(q := old(q)[count..])
        invariant head == if q == [] then None else Some(q[0])
        invariant Spec.AckCount(old(q), s.reqid) == count + Spec.AckCount(q, s.reqid)
        decreases |q|
      {
        var fseq := GetSeqno(head.value);
        if fseq.Some? && fseq.value.reqid > s.reqid {
          break;
        }
        Flush1();
        count := count + 1;
        head := QHead();
      }
    }

    /** Empty the queue. */
    method Flush()
      modifies this
      ensures View() == Spec.Flush(old(View()))
    {
      while q != []
        invariant View() == old(View()).(q := q)
        decreases |q|
      {
        q := q[1..];
      }
    }

    method Flush1()
      modifies this
      ensures View() == old(View()).(q := if old(q) == [] then [] else old(q)[1..])
    {
      var dropped := Deq();
    }
  }
}
