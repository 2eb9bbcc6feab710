/** Packets built and taken apart in place: the fill from the back of a buffer, and the decoding loop. */
module Packets {
  import opened FrameSets
  import opened Tlv
  import opened Codec

  // ---------- Writing into a buffer ----------

  function Overwritten(a: seq<byte>, at: nat, bytes: seq<byte>): (r: seq<byte>)
    requires at + |bytes| <= |a|
    ensures |r| == |a|
  {
    a[..at] + bytes + a[at + |bytes|..]
  }

  method PutAt(a: array<byte>, at: nat, bytes: seq<byte>)
    requires at + |bytes| <= a.Length
    modifies a
    ensures a[..] == Overwritten(old(a[..]), at, bytes)
  {
    for k := 0 to |bytes|
      invariant forall i :: 0 <= i < k ==> a[at + i] == bytes[i]
      invariant forall i :: 0 <= i < a.Length && !(at <= i < at + k) ==> a[i] == old(a[i])
    {
      a[at + k] := bytes[k];
    }
    ghost var r := Overwritten(old(a[..]), at, bytes);
    assert forall i :: 0 <= i < a.Length ==> a[i] == r[i];
  }

  lemma OverwriteCommutes(a: seq<byte>, i: nat, x: seq<byte>, j: nat, y: seq<byte>)
    requires i + |x| <= j && j + |y| <= |a|
    ensures Overwritten(Overwritten(a, i, x), j, y) == Overwritten(Overwritten(a, j, y), i, x)
  {
  }

  /** Bytes written in front of bytes that are in place. */
  lemma OverwriteFront(a: seq<byte>, at: nat, bytes: seq<byte>, tail: seq<byte>)
    requires at + |bytes| <= |a| && a[at + |bytes|..] == tail
    ensures Overwritten(a, at, bytes)[at..] == bytes + tail
  {
  }

  lemma EntryWritten(a: seq<byte>, at: nat, t: seq<byte>, n: seq<byte>, value: seq<byte>, tail: seq<byte>)
    requires |t| == 2 && |n| == 3 && at + HEADER + |value| <= |a| && a[at + HEADER + |value|..] == tail
    ensures Overwritten(Overwritten(Overwritten(a, at, t), at + 2, n), at + HEADER, value)[at..]
            == t + (n + (value + tail))
  {
    hide Overwritten;
    OverwriteCommutes(Overwritten(a, at, t), at + 2, n, at + HEADER, value);
    OverwriteCommutes(a, at, t, at + HEADER, value);
    var b := Overwritten(a, at + HEADER, value);
    OverwriteCommutes(b, at, t, at + 2, n);
    OverwriteFront(a, at + HEADER, value, tail);
    OverwriteFront(b, at + 2, n, value + tail);
    OverwriteFront(Overwritten(b, at + 2, n), at, t, n + (value + tail));
  }

  /** A type, a length, and a value in front of bytes that are in place. */
  method WriteFront(p: array<byte>, at: nat, t: nat, len: nat, value: seq<byte>, ghost tail: seq<byte>)
    requires at + HEADER + |value| <= p.Length && tail == p[at + HEADER + |value|..]
    modifies p
    ensures p[at..] == Put(t, 2) + (Put(len, 3) + (value + tail))
  {
    hide Put, Overwritten;
    ghost var a := p[..];
    assert a[at + HEADER + |value|..] == tail;
    EntryWritten(a, at, Put(t, 2), Put(len, 3), value, tail);
    PutAt(p, at, Put(t, 2));
    PutAt(p, at + 2, Put(len, 3));
    PutAt(p, at + HEADER, value);
    assert p[at..] == p[..][at..];
  }

  /** Write a frame's entry in front of the bytes already filled in. Encryption works in place on those bytes;
      compression moves to a new buffer. */
  method UpdateData(packet: array<byte>, offset: nat, f: Frame, nonce: seq<byte>, x: Suite) returns (p: array<byte>)
    requires Inverse(x) && FrameOk(f, x) && |nonce| == NONCE && offset + DataSpace(f, x) <= packet.Length
    modifies packet
    ensures p == packet || fresh(p)
    ensures offset <= p.Length
    ensures var rest := old(packet[offset + DataSpace(f, x)..]);
            p[offset..] == Bytes(EntryOf(f, rest, nonce, x)) + if Swallows(f) then [] else rest
  {
    hide Inverse, Put, KeyName, Bytes;
    ghost var rest := packet[offset + DataSpace(f, x)..];
    ghost var e := EntryOf(f, rest, nonce, x);
    if f.Plain? {
      p := packet;
      WriteFront(p, offset, f.ftype, |f.value|, f.value, rest);
      EntryBytes(e, rest);
    } else if f.Sig? {
      p := packet;
      var sum := x.cksum(f.minor, packet[offset + HEADER + 2 + x.cksumSize(f.minor)..]);
      assert |sum| == x.cksumSize(f.minor) by { SumLength(f.minor, rest, x); }
      WriteFront(p, offset, SIG, 2 + |sum|, [GLIB, f.minor] + sum, rest);
      EntryBytes(e, rest);
    } else if f.Crypt? {
      p := packet;
      EncryptInPlace(p, offset, f, nonce, x);
      assert Bytes(e) + [] == Bytes(e);
    } else {
      p := CompressAway(packet, offset, f, nonce, x);
      assert Bytes(e) + [] == Bytes(e);
    }
  }

  lemma EntryBytes(e: Entry, rest: seq<byte>)
    ensures Bytes(e) + rest == Put(e.etype, 2) + (Put(|e.value|, 3) + (e.value + rest))
  {
    hide Put;
  }

  lemma SumLength(minor: nat, s: seq<byte>, x: Suite)
    requires Inverse(x)
    ensures |x.cksum(minor, s)| == x.cksumSize(minor)
  {
  }

  lemma BoxLength(f: Frame, nonce: seq<byte>, plain: seq<byte>, x: Suite)
    requires Inverse(x) && f.Crypt?
    ensures |x.seal(f.sender, f.receiver, nonce, plain)| == MAC + |plain|
  {
  }

  /** [names, nonce, MAC, cipher text]: the cipher text takes the place of the plain text that follows the frame. */
  method EncryptInPlace(p: array<byte>, offset: nat, f: Frame, nonce: seq<byte>, x: Suite)
    requires Inverse(x) && f.Crypt? && FrameOk(f, x) && |nonce| == NONCE && offset + DataSpace(f, x) <= p.Length
    modifies p
    ensures p[offset..] == Bytes(EntryOf(f, old(p[offset + DataSpace(f, x)..]), nonce, x))
  {
    hide Put, KeyName, Bytes, Overwritten, Inverse;
    var value := offset + HEADER;
    var plain := value + Length(f, x);
    var box := x.seal(f.sender, f.receiver, nonce, p[plain..]);
    assert |box| == MAC + (p.Length - plain) by { BoxLength(f, nonce, p[plain..], x); }
    KeyNameLength(f.sender);
    KeyNameLength(f.receiver);
    var names := KeyName(f.sender) + KeyName(f.receiver);
    ghost var e := EntryOf(f, p[plain..], nonce, x);
    BoxWritten(p[..], plain, box, nonce);
    PutAt(p, plain - MAC, box);
    PutAt(p, plain - MAC - NONCE, nonce);
    assert p[value + |names|..] == p[..][value + |names|..];
    WriteFront(p, offset, CRYPT, p.Length - value, names, nonce + box);
    assert e.value == names + (nonce + box) && |e.value| == p.Length - value;
    EntryBytes(e, []);
    assert e.value + [] == e.value && Bytes(e) + [] == Bytes(e);
  }

  lemma BoxWritten(a: seq<byte>, plain: nat, box: seq<byte>, nonce: seq<byte>)
    requires plain >= MAC + NONCE && plain - MAC + |box| == |a| && |nonce| == NONCE
    ensures Overwritten(Overwritten(a, plain - MAC, box), plain - MAC - NONCE, nonce)[plain - MAC - NONCE..] ==
            nonce + box
  {
    hide Overwritten;
    OverwriteFront(a, plain - MAC, box, []);
    assert box + [] == box;
    OverwriteFront(Overwritten(a, plain - MAC, box), plain - MAC - NONCE, nonce, box);
  }

  /** A new buffer with room in front, the method, the size before compression, and the compressed data. */
  method CompressAway(packet: array<byte>, offset: nat, f: Frame, nonce: seq<byte>, x: Suite) returns (p: array<byte>)
    requires f.Comp? && FrameOk(f, x) && offset + DataSpace(f, x) <= packet.Length
    ensures fresh(p) && offset <= p.Length
    ensures p[offset..] == Bytes(EntryOf(f, packet[offset + DataSpace(f, x)..], nonce, x))
  {
    hide Put, Bytes, Overwritten;
    var from := offset + HEADER + COMPRESS_HEADER;
    var data := x.deflate(f.cmethod, packet[from..]);
    var size := packet.Length - from;
    ghost var e := EntryOf(f, packet[from..], nonce, x);
    p := new byte[from + |data|](i => 0);
    OverwriteFront(p[..], from, data, []);
    PutAt(p, from, data);
    assert p[from..] == p[..][from..] == data + [] == data;
    var head := [f.cmethod] + Put(size, 3);
    WriteFront(p, offset, COMPRESS, COMPRESS_HEADER + |data|, head, data);
    assert e.value == head + data;
    EntryBytes(e, []);
    assert e.value + [] == e.value && Bytes(e) + [] == Bytes(e);
  }

  // ---------- A frameset ----------

  lemma {:induction false} SpaceSplit(all: seq<Frame>, k: nat, x: Suite)
    requires k < |all|
    ensures TotalSpace(all[..k + 1], x) == TotalSpace(all[..k], x) + DataSpace(all[k], x)
  {
    assert all[..k + 1] == all[..k] + [all[k]];
    SpaceSnoc(all[..k], all[k], x);
  }

  lemma NothingFilled(nonce: seq<byte>, x: Suite)
    ensures TotalSpace([], x) == 0 && Fill([], nonce, x) == []
  {
  }

  lemma FillAt(all: seq<Frame>, k: nat, nonce: seq<byte>, x: Suite)
    requires k < |all| && forall f :: f in all ==> FrameOk(f, x)
    ensures FrameOk(all[k], x)
    ensures var rest := Fill(all[k + 1..], nonce, x);
            Fill(all[k..], nonce, x) == Bytes(EntryOf(all[k], rest, nonce, x)) + if Swallows(all[k]) then [] else rest
  {
    hide FrameOk, EntryOf, Bytes;
    assert all[k..][0] == all[k] && all[k..][1..] == all[k + 1..];
    assert all[k] in all;
  }

  class FrameSetObject {
    var fstype: nat
    var fsflags: nat
    var framelist: seq<Frame>
    var packet: array<byte>

    constructor (fstype: nat)
      ensures this.fstype == fstype && fsflags == 0 && framelist == [] && fresh(packet)
    {
      this.fstype := fstype;
      fsflags := 0;
      framelist := [];
      packet := new byte[0];
    }

    method PrependFrame(f: Frame)
      modifies this
      ensures framelist == [f] + old(framelist)
      ensures fstype == old(fstype) && fsflags == old(fsflags) && packet == old(packet)
    {
      framelist := [f] + framelist;
    }

    method AppendFrame(f: Frame)
      modifies this
      ensures framelist == old(framelist) + [f]
      ensures fstype == old(fstype) && fsflags == old(fsflags) && packet == old(packet)
    {
      framelist := framelist + [f];
    }

    /** Take the special frames of an earlier packet off the front of the list. */
    method Strip()
      modifies `framelist
      ensures framelist == DropSpecial(old(framelist))
    {
      while framelist != [] && !framelist[0].Plain?
        invariant DropSpecial(framelist) == DropSpecial(old(framelist))
        decreases |framelist|
      {
        framelist := framelist[1..];
      }
    }

    /** Give the list of frames its special frames and its END. */
    method Prepare(o: Options, x: Suite)
      requires OptionsOk(o, x)
      modifies this
      ensures framelist == Prepared(old(framelist), o, x)
      ensures fstype == old(fstype) && fsflags == old(fsflags) && packet == old(packet)
    {
      hide FrameOk, TotalSpace, DropSpecial;
      Strip();
      if o.comp.Some? {
        var estsize := SpaceOf(FRAMESET_HEADER, x);
        if estsize > o.comp.value.1 {
          PrependFrame(Comp(o.comp.value.0));
        }
      }
      if o.crypt.Some? {
        PrependFrame(o.crypt.value);
      }
      PrependFrame(Sig(o.minor));
      var last := framelist[|framelist| - 1];
      if !(last.Plain? && last.ftype == END) {
        AppendFrame(Plain(END, []));
      }
    }

    method SpaceOf(start: nat, x: Suite) returns (size: nat)
      ensures size == start + TotalSpace(framelist, x)
    {
      size := start;
      assert TotalSpace(framelist[..0], x) == 0;
      for k := 0 to |framelist|
        invariant size == start + TotalSpace(framelist[..k], x)
      {
        SpaceSplit(framelist, k, x);
        size := size + DataSpace(framelist[k], x);
      }
      assert framelist[..|framelist|] == framelist;
    }

    /** Build the packet: room for all frames, filled from the back, and the header of the frameset. */
    method ConstructPacket(o: Options, nonce: seq<byte>, x: Suite)
      requires Inverse(x) && OptionsOk(o, x) && |nonce| == NONCE
      requires forall f :: f in Prepared(framelist, o, x) ==> FrameOk(f, x)
      modifies this
      ensures fstype == old(fstype) && fsflags == old(fsflags)
      ensures framelist == Prepared(old(framelist), o, x)
      ensures fresh(packet) && packet[..] == PacketBytes(fstype, fsflags, framelist, nonce, x)
    {
      hide Inverse, FrameOk, Prepared, OptionsOk, Put, Fill;
      Prepare(o, x);
      FillFromBack(nonce, x);
      WriteHeader();
    }

    method FillFromBack(nonce: seq<byte>, x: Suite)
      requires Inverse(x) && |nonce| == NONCE && forall f :: f in framelist ==> FrameOk(f, x)
      modifies this`packet
      ensures fresh(packet) && packet.Length >= FRAMESET_HEADER
      ensures packet[FRAMESET_HEADER..] == Fill(framelist, nonce, x)
    {
      hide Inverse, FrameOk, Fill, EntryOf, Bytes, TotalSpace, DataSpace;
      var pktsize := SpaceOf(FRAMESET_HEADER, x);
      packet := new byte[pktsize](i => 0);
      var offset := pktsize;
      assert framelist[..|framelist|] == framelist && framelist[|framelist|..] == [] && packet[offset..] == [];
      NothingFilled(nonce, x);
      for k := |framelist| downto 0
        invariant fresh(packet) && offset == FRAMESET_HEADER + TotalSpace(framelist[..k], x) && offset <= packet.Length
        invariant packet[offset..] == Fill(framelist[k..], nonce, x)
      {
        assert framelist[k] in framelist;
        SpaceSplit(framelist, k, x);
        FillAt(framelist, k, nonce, x);
        offset := offset - DataSpace(framelist[k], x);
        packet := UpdateData(packet, offset, framelist[k], nonce, x);
      }
      assert framelist[0..] == framelist;
      NothingFilled(nonce, x);
      assert framelist[..0] == [];
    }

    method WriteHeader()
      requires packet.Length >= FRAMESET_HEADER
      modifies packet
      ensures packet[..] == Put(fstype, 2) + Put(packet.Length - FRAMESET_HEADER, 3) + Put(fsflags, 2)
                            + old(packet[FRAMESET_HEADER..])
    {
      hide Put;
      PutAt(packet, 0, Put(fstype, 2));
      PutAt(packet, 2, Put(packet.Length - FRAMESET_HEADER, 3));
      PutAt(packet, HEADER, Put(fsflags, 2));
    }
  }

  // ---------- Decoding ----------

  /** What the frames found so far and those still to come make together. */
  function Joined(frames: seq<Frame>, more: Option<seq<Frame>>): Option<seq<Frame>> {
    if more.Some? then Some(frames + more.value) else None
  }

  /** The decoding loop: what is left of the packet shrinks, or is replaced, frame by frame. */
  method DecodePacket(p: seq<byte>, x: Suite, fuel: nat) returns (r: Option<(Decoded, seq<byte>)>)
    ensures r == Decode(p, x, fuel)
  {
    hide DecodeOne, Split, GetType, GetLen;
    if |p| < FRAMESET_HEADER {
      return None;
    }
    var framesetlen := GetLen(p);
    if framesetlen > |p| - FRAMESET_HEADER || framesetlen < FRAMESET_HEADER {
      return None;
    }
    var valid := IsValidPacket(p[FRAMESET_HEADER..]);
    if !valid {
      return None;
    }
    var frames := FramesOf(p[FRAMESET_HEADER..FRAMESET_HEADER + framesetlen], x, fuel);
    if frames.None? || frames.value == [] || !frames.value[0].Sig? {
      return None;
    }
    r := Some((Decoded(GetType(p), Get(p[5..7]), frames.value), p[FRAMESET_HEADER + framesetlen..]));
  }

  method FramesOf(start: seq<byte>, x: Suite, fuel: nat) returns (r: Option<seq<Frame>>)
    ensures r == DecodeFrames(start, x, fuel)
  {
    hide DecodeOne;
    var cur, left := start, fuel;
    var frames: seq<Frame> := [];
    assert DecodeFrames(start, x, fuel) == Joined([], DecodeFrames(start, x, fuel)) by {
      var d := DecodeFrames(start, x, fuel);
      if d.Some? { assert [] + d.value == d.value; }
    }
    while cur != []
      invariant DecodeFrames(start, x, fuel) == Joined(frames, DecodeFrames(cur, x, left))
      decreases left
    {
      if left == 0 {
        return None;
      }
      var next := DecodeOne(cur, x);
      if next.None? {
        return None;
      }
      ghost var more := DecodeFrames(next.value.1, x, left - 1);
      if more.Some? { assert frames + ([next.value.0] + more.value) == frames + [next.value.0] + more.value; }
      frames := frames + [next.value.0];
      cur := next.value.1;
      left := left - 1;
    }
    assert frames + [] == frames;
    r := Some(frames);
  }
}
