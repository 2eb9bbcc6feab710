/** Big-endian integers and TLV (type, length, value) entries. */
module Tlv {
  import opened FrameSets

  type byte = b: nat | b < 256

  const BAD16 := 0xffff
  const BAD24 := 0xff_ffff
  const HEADER := 5
  const END := 0
  const SIG := 1

  // ---------- Integers ----------

  function Limit(n: nat): nat {
    if n == 0 then 1 else 256 * Limit(n - 1)
  }

  function Put(v: nat, n: nat): (s: seq<byte>)
    ensures |s| == n
  {
    if n == 0 then [] else Put(v / 256, n - 1) + [v % 256]
  }

  function Get(s: seq<byte>): nat {
    if s == [] then 0 else Get(s[..|s| - 1]) * 256 + s[|s| - 1]
  }

  /** The first byte is the most significant one. */
  lemma {:induction false} BigEndian(b: byte, s: seq<byte>)
    ensures Get([b] + s) == b * Limit(|s|) + Get(s)
  {
    if s == [] {
      assert ([b] + s)[..0] == [];
    } else {
      var init := s[..|s| - 1];
      BigEndian(b, init);
      assert ([b] + s)[..|s|] == [b] + init;
      assert 256 * (b * Limit(|init|)) == b * (256 * Limit(|init|));
    }
  }

  /** Reading back what was written, for every width. */
  lemma {:induction false} GetPut(v: nat, n: nat)
    requires v < Limit(n)
    ensures Get(Put(v, n)) == v
  {
    if n == 0 {
    } else {
      GetPut(v / 256, n - 1);
      assert Put(v, n)[..n - 1] == Put(v / 256, n - 1);
    }
  }

  /** Writing what was read gives the same bytes. */
  lemma {:induction false} PutGet(s: seq<byte>)
    ensures Get(s) < Limit(|s|) && Put(Get(s), |s|) == s
  {
    if s == [] {
    } else {
      var init := s[..|s| - 1];
      PutGet(init);
      assert Get(s) / 256 == Get(init) && Get(s) % 256 == s[|s| - 1];
      assert s == init + [s[|s| - 1]];
    }
  }

  lemma Limits()
    ensures Limit(1) == 256 && Limit(2) == 0x1_0000 && Limit(3) == 0x100_0000
    ensures Limit(4) == 0x1_0000_0000 && Limit(8) == 0x1_0000_0000_0000_0000
  {
    assert Limit(0) == 1;
    assert Limit(4) == 256 * Limit(3);
    assert Limit(6) == 256 * Limit(5) && Limit(5) == 256 * Limit(4);
    assert Limit(8) == 256 * Limit(7) && Limit(7) == 256 * Limit(6);
  }

  // ---------- One entry ----------

  /** The type of the entry at the start of these bytes; 0xffff if they are too short. */
  function GetType(p: seq<byte>): nat {
    if |p| < 2 then BAD16 else Get(p[..2])
  }

  /** Its length; 0xffffff if the bytes are too short for it. */
  function GetLen(p: seq<byte>): nat {
    if |p| < HEADER then BAD24
    else
      var n := Get(p[2..5]);
      if n > |p| then BAD24 else n
  }

  datatype Entry = Entry(etype: nat, value: seq<byte>)

  predicate Small(e: Entry) {
    e.etype < 0x1_0000 && |e.value| < 0x100_0000
  }

  function Bytes(e: Entry): (p: seq<byte>)
    ensures |p| == HEADER + |e.value|
  {
    Put(e.etype, 2) + Put(|e.value|, 3) + e.value
  }

  /** An entry at the start of some bytes is read back. */
  lemma ReadEntry(e: Entry, rest: seq<byte>)
    requires Small(e)
    ensures var p := Bytes(e) + rest;
            && GetType(p) == e.etype && GetLen(p) == |e.value|
            && p[HEADER..HEADER + |e.value|] == e.value && p[HEADER + |e.value|..] == rest
  {
    hide Put, Get;
    Limits();
    GetPut(e.etype, 2);
    GetPut(|e.value|, 3);
    var p := Bytes(e) + rest;
    assert p[..2] == Put(e.etype, 2);
    assert p[2..5] == Put(|e.value|, 3);
  }

  // ---------- Runs ----------

  function Concat(es: seq<Entry>): seq<byte> {
    if es == [] then [] else Bytes(es[0]) + Concat(es[1..])
  }

  /** The bytes taken apart into entries, if they are a run of entries with nothing left over. */
  function Split(p: seq<byte>): Option<seq<Entry>>
    decreases |p|
  {
    if p == [] then Some([])
    else if |p| < HEADER || HEADER + GetLen(p) > |p| then None
    else
      var n := GetLen(p);
      match Split(p[HEADER + n..])
      case None => None
      case Some(es) => Some([Entry(GetType(p), p[HEADER..HEADER + n])] + es)
  }

  /** Taking a run apart gives the entries it was made of. */
  lemma {:induction false} SplitConcat(es: seq<Entry>)
    requires forall e :: e in es ==> Small(e)
    ensures Split(Concat(es)) == Some(es)
  {
    hide Small, Bytes, GetType, GetLen;
    if es == [] {
    } else {
      assert es[0] in es;
      ReadEntry(es[0], Concat(es[1..]));
      SplitConcat(es[1..]);
      assert es == [es[0]] + es[1..];
    }
  }

  /** Bytes that can be taken apart are the run of their entries. */
  lemma {:induction false} ConcatSplit(p: seq<byte>)
    ensures Split(p).Some? ==> Concat(Split(p).value) == p
    decreases |p|
  {
    hide Bytes, GetType, GetLen;
    if p == [] || Split(p).None? {
    } else {
      var n := GetLen(p);
      ConcatSplit(p[HEADER + n..]);
      FirstBytes(p);
      assert Split(p).value[1..] == Split(p[HEADER + n..]).value;
    }
  }

  /** The first entry of some bytes, written again, gives back the bytes it was read from. */
  lemma FirstBytes(p: seq<byte>)
    requires |p| >= HEADER && HEADER + GetLen(p) <= |p|
    ensures var n := GetLen(p);
            p == Bytes(Entry(GetType(p), p[HEADER..HEADER + n])) + p[HEADER + n..]
  {
    hide Put, Get;
    var n := GetLen(p);
    PutGet(p[..2]);
    PutGet(p[2..5]);
    assert p == p[..2] + p[2..5] + p[HEADER..HEADER + n] + p[HEADER + n..];
  }

  /** The length of the first entry leads past the end. */
  predicate FirstOverruns(p: seq<byte>) {
    |p| >= HEADER && HEADER + GetLen(p) > |p|
  }

  /** The check of a received packet, entry by entry. It accepts a run of entries that begins with a signature; and
      also any bytes whose very first entry leads past their end, because the walk over them never begins. */
  method IsValidPacket(p: seq<byte>) returns (valid: bool)
    ensures valid <==> FirstOverruns(p) || (p != [] && Split(p).Some? && GetType(p) == SIG)
  {
    hide GetLen, GetType;
    if |p| < HEADER {
      return false;
    }
    var cur := p;
    var first := First(p);
    if first.None? {
      return true;
    }
    var j := 0;
    while cur != []
      invariant |cur| <= |p| && (j == 0 ==> cur == p)
      invariant Split(p).Some? <==> Split(cur).Some?
      invariant j > 0 ==> GetType(p) == SIG
      decreases |cur|
    {
      assert FirstLonger(cur) <==> |cur| < HEADER || HEADER + GetLen(cur) > |cur|;
      if FirstLonger(cur) {
        return false;
      }
      if j == 0 && GetType(cur) != SIG {
        return false;
      }
      j := j + 1;
      cur := cur[HEADER + GetLen(cur)..];
    }
    return true;
  }

  predicate FirstLonger(p: seq<byte>) {
    HEADER + GetLen(p) > |p|
  }

  // ---------- Iteration ----------

  /** The position of the first entry, if it lies within the packet. */
  function First(p: seq<byte>): Option<nat> {
    if |p| < HEADER || HEADER + GetLen(p) > |p| then None else Some(0)
  }

  /** The position of the entry after the one at i, if that is not an END and the next one lies within the packet. */
  function Next(p: seq<byte>, i: nat): (r: Option<nat>)
    requires i <= |p|
    ensures r.Some? ==> i < r.value <= |p|
  {
    if |p| - i < HEADER || GetType(p[i..]) == END then None
    else
      var next := i + HEADER + GetLen(p[i..]);
      if next > |p| || next + HEADER + GetLen(p[next..]) > |p| then None else Some(next)
  }

  /** The entries met by iterating from position i on. */
  function Listed(p: seq<byte>, i: nat): seq<Entry>
    requires i <= |p| && |p| - i >= HEADER && i + HEADER + GetLen(p[i..]) <= |p|
    decreases |p| - i
  {
    var n := GetLen(p[i..]);
    [Entry(GetType(p[i..]), p[i + HEADER..i + HEADER + n])]
    + if Next(p, i).Some? then
        NextFits(p, i);
        Listed(p, Next(p, i).value)
      else []
  }

  lemma NextFits(p: seq<byte>, i: nat)
    requires i <= |p| && Next(p, i).Some?
    ensures var k := Next(p, i).value; |p| - k >= HEADER && k + HEADER + GetLen(p[k..]) <= |p|
  {
    hide Get;
  }

  /** The entries through the first END. */
  function UpToEnd(es: seq<Entry>): seq<Entry> {
    if es == [] then [] else [es[0]] + if es[0].etype == END then [] else UpToEnd(es[1..])
  }

  lemma {:induction false} UpToEndIsAll(es: seq<Entry>)
    requires forall i :: 0 <= i < |es| - 1 ==> es[i].etype != END
    ensures UpToEnd(es) == es
  {
    if es == [] {
    } else if |es| == 1 {
      assert es == [es[0]] + es[1..];
    } else {
      UpToEndIsAll(es[1..]);
      assert es == [es[0]] + es[1..];
    }
  }

  /** Iterating over a packet lists exactly its entries, in order, through the first END. */
  lemma {:induction false} IterationLists(front: seq<byte>, es: seq<Entry>)
    requires es != [] && forall e :: e in es ==> Small(e)
    ensures var p := front + Concat(es);
            var i := |front|;
            && |p| - i >= HEADER && i + HEADER + GetLen(p[i..]) <= |p| && Listed(p, i) == UpToEnd(es)
    decreases |es|
  {
    hide Put, Get, Bytes, Small, GetLen, GetType, Concat, Listed;
    var p := front + Concat(es);
    var i := |front|;
    var e := es[0];
    assert e in es;
    var tail := Concat(es[1..]);
    ConcatUnfolds(es);
    assert p[i..] == Bytes(e) + tail;
    ReadEntry(e, tail);
    var next := i + HEADER + |e.value|;
    assert p[next..] == tail;
    ListedUnfolds(p, i, e);
    if |es| == 1 {
      assert tail == [] by { ConcatNothing(es[1..]); }
      assert Next(p, i) == None by { NothingAfter(p, i); }
      assert es[1..] == [];
    } else if e.etype != END {
      assert p == (front + Bytes(e)) + tail;
      IterationLists(front + Bytes(e), es[1..]);
    }
  }

  lemma ConcatUnfolds(es: seq<Entry>)
    requires es != []
    ensures Concat(es) == Bytes(es[0]) + Concat(es[1..])
  {
  }

  lemma ConcatNothing(es: seq<Entry>)
    requires es == []
    ensures Concat(es) == []
  {
  }

  lemma NothingAfter(p: seq<byte>, i: nat)
    requires i <= |p| && |p| - i >= HEADER && i + HEADER + GetLen(p[i..]) == |p|
    ensures Next(p, i) == None
  {
    hide Get;
  }

  lemma ListedUnfolds(p: seq<byte>, i: nat, e: Entry)
    requires i <= |p| && |p| - i >= HEADER && i + HEADER + |e.value| <= |p|
    requires GetType(p[i..]) == e.etype && GetLen(p[i..]) == |e.value|
    requires p[i..][HEADER..HEADER + |e.value|] == e.value
    ensures Next(p, i).Some? ==>
              var k := Next(p, i).value; |p| - k >= HEADER && k + HEADER + GetLen(p[k..]) <= |p|
    ensures Listed(p, i) == [e] + if Next(p, i).Some? then Listed(p, Next(p, i).value) else []
  {
    hide GetLen, GetType;
    if Next(p, i).Some? { NextFits(p, i); }
    assert p[i..][HEADER..HEADER + |e.value|] == p[i + HEADER..i + HEADER + |e.value|];
  }
}
