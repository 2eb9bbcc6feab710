/** Framesets, sequence numbers and the wire packets that carry them. */
module FrameSets {

  datatype Option<+T> = None | Some(value: T)

  // Frameset types that the protocol engine itself looks at.
  const MIN_SEQFRAMESET := 16
  const ACK := 16
  const CONNSHUT := 17
  const CONNNAK := 18

  /** The contents of a SeqnoFrame. */
  datatype Seqno = Seqno(session: nat, reqid: nat, qid: nat)

  /** A frameset: its type, its first FRAMETYPE_REQID frame (if any) and the rest of its frames. */
  datatype FrameSet = FrameSet(fstype: nat, reqFrame: Option<Seqno>, body: seq<nat>)

  /** A frameset sent to a connection's far endpoint. */
  datatype Packet<+K> = Packet(dest: K, fs: FrameSet)

  /** Only types from MIN_SEQFRAMESET on are searched for a sequence number. */
  function GetSeqno(fs: FrameSet): Option<Seqno> {
    if fs.fstype < MIN_SEQFRAMESET then None else fs.reqFrame
  }

  predicate Sequenced(fs: FrameSet) {
    GetSeqno(fs).Some?
  }

  /** Order by session, then by request id; the queue id is ignored. */
  function Compare(a: Seqno, b: Seqno): int {
    if a.session == b.session then
      if a.reqid < b.reqid then -1 else if a.reqid > b.reqid then 1 else 0
    else if a.session < b.session then -1
    else 1
  }

  predicate Precedes(a: Seqno, b: Seqno) {
    Compare(a, b) < 0
  }

  /** Compare is a total order up to the queue id: it is antisymmetric, transitive and 0 exactly on equal ids. */
  lemma CompareIsOrder(a: Seqno, b: Seqno, c: Seqno)
    ensures Compare(a, b) == -Compare(b, a)
    ensures Precedes(a, b) && Precedes(b, c) ==> Precedes(a, c)
    ensures Compare(a, b) == 0 <==> (a.session == b.session && a.reqid == b.reqid)
  {
  }

  function AckOf(seqno: Seqno): FrameSet {
    FrameSet(ACK, Some(seqno), [])
  }

  function ShutFrameSet(): FrameSet {
    FrameSet(CONNSHUT, None, [])
  }
}
