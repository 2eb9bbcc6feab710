/** The values of integer and sequence number frames. */
module ValueFrames {
  import opened FrameSets
  import opened Tlv

  /** Session, request id and queue id, 4, 8 and 2 bytes wide. */
  function SeqnoValue(s: Seqno): seq<byte> {
    Put(s.session, 4) + Put(s.reqid, 8) + Put(s.qid, 2)
  }

  function ParseSeqno(v: seq<byte>): Option<Seqno> {
    if |v| != 14 then None else Some(Seqno(Get(v[..4]), Get(v[4..12]), Get(v[12..])))
  }

  predicate SeqnoFits(s: Seqno) {
    s.session < 0x1_0000_0000 && s.reqid < 0x1_0000_0000_0000_0000 && s.qid < 0x1_0000
  }

  /** Sequence numbers and 14 byte values stand for each other one to one: the session in the first four bytes, the
      request id in the next eight, the queue id in the last two. */
  lemma SeqnoRoundTrip(s: Seqno, v: seq<byte>)
    requires SeqnoFits(s)
    ensures ParseSeqno(SeqnoValue(s)) == Some(s)
    ensures var w := SeqnoValue(s); Get(w[..4]) == s.session && Get(w[4..12]) == s.reqid && Get(w[12..]) == s.qid
    ensures |v| == 14 <==> ParseSeqno(v).Some? && SeqnoFits(ParseSeqno(v).value) && SeqnoValue(ParseSeqno(v).value) == v
  {
    hide Put, Get;
    Limits();
    GetPut(s.session, 4);
    GetPut(s.reqid, 8);
    GetPut(s.qid, 2);
    var w := SeqnoValue(s);
    assert w[..4] == Put(s.session, 4) && w[4..12] == Put(s.reqid, 8) && w[12..] == Put(s.qid, 2);
    if |v| == 14 {
      PutGet(v[..4]);
      PutGet(v[4..12]);
      PutGet(v[12..]);
      assert v == v[..4] + v[4..12] + v[12..];
    }
  }

  /** The widths that an integer frame can have. */
  predicate IntWidth(n: nat) {
    n == 1 || n == 2 || n == 3 || n == 4 || n == 8
  }

  /** Setting a value that does not fit leaves the frame as it was. */
  function SetInt(current: nat, n: nat, v: nat): nat
    requires IntWidth(n)
  {
    if v < Limit(n) then v else current
  }

  function ParseInt(value: seq<byte>): Option<nat> {
    if IntWidth(|value|) then Some(Get(value)) else None
  }

  /** A value set on an integer frame comes back from its bytes exactly if it fits; otherwise the old value does. */
  lemma IntRoundTrip(current: nat, n: nat, v: nat)
    requires IntWidth(n) && current < Limit(n)
    ensures ParseInt(Put(SetInt(current, n, v), n)) == Some(v) <==> v < Limit(n)
    ensures ParseInt(Put(SetInt(current, n, v), n)) == if v < Limit(n) then Some(v) else Some(current)
  {
    hide Put, Get, Limit;
    GetPut(SetInt(current, n, v), n);
  }
}
