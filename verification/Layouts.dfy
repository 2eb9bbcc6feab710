/** What the decoder takes from a packet, said by the bytes that it takes: a reference for the decoder that does not
    say how it reads them. */
module Layouts {
  import opened FrameSets
  import opened Tlv
  import opened Codec

  /** A signature with some checksum. */
  function SigEntry(minor: byte, sum: seq<byte>): Entry {
    Entry(SIG, [GLIB, minor] + sum)
  }

  function CryptEntry(sender: seq<byte>, receiver: seq<byte>, nonce: seq<byte>, box: seq<byte>): Entry
    requires |sender| < 255 && |receiver| < 255
  {
    Entry(CRYPT, KeyName(sender) + (KeyName(receiver) + (nonce + box)))
  }

  /** Bytes that stand for an encryption frame: two key names, a nonce, and a box at least as long as its code, that
      opens to what comes next. */
  ghost predicate CryptLaid(r: seq<byte>, sender: seq<byte>, receiver: seq<byte>, rest: seq<byte>, x: Suite) {
    Named(sender, x) && Named(receiver, x) &&
    exists nonce, box, tail ::
      && |nonce| == NONCE && |box| >= MAC && Small(CryptEntry(sender, receiver, nonce, box))
      && r == Bytes(CryptEntry(sender, receiver, nonce, box)) + tail
      && x.open(sender, receiver, nonce, box).Some?
      && rest == x.open(sender, receiver, nonce, box).value + tail
  }

  /** Bytes that stand for a compression frame, whatever length they give: a known method, a size within the limits,
      and data that inflate to what comes next. */
  ghost predicate CompLaid(r: seq<byte>, m: nat, rest: seq<byte>, x: Suite) {
    m < 256 && x.knownMethod(m) &&
    exists len, size: nat, data ::
      && |len| == 3 && 16 < size <= MAX_UNCOMPRESSED
      && r == Put(COMPRESS, 2) + len + [m] + Put(size, 3) + data
      && x.inflate(m, data, size) == Some(rest)
  }

  /** These bytes stand for a frame with something after it. */
  ghost predicate Laid(r: seq<byte>, f: Frame, rest: seq<byte>, x: Suite) {
    match f
    case Plain(t, value) => FrameOk(f, x) && r == Bytes(Entry(t, value)) + rest
    case Sig(minor) =>
      minor < 256 && x.cksumSize(minor) > 1
      && exists sum :: sum != [] && Small(SigEntry(minor, sum)) && r == Bytes(SigEntry(minor, sum)) + rest
    case Crypt(sender, receiver) => CryptLaid(r, sender, receiver, rest, x)
    case Comp(m) => CompLaid(r, m, rest, x)
  }

  lemma ReadKeyIs(s: seq<byte>, x: Suite)
    requires ReadKey(s, x).Some?
    ensures var (id, used) := ReadKey(s, x).value;
            Named(id, x) && used == |id| + 2 <= |s| && s == KeyName(id) + s[used..]
  {
    var (id, used) := ReadKey(s, x).value;
    var name := s[1..used];
    assert name[..|id|] == id && name[|id|] == 0;
    assert name == id + [0];
    assert s == [s[0]] + name + s[used..];
  }

  /** The numbers at the start of some bytes are within their widths. */
  lemma HeaderFits(r: seq<byte>)
    requires |r| >= HEADER
    ensures GetType(r) <= BAD16 && GetLen(r) <= BAD24
  {
    hide Get, Put;
    Limits();
    PutGet(r[..2]);
    PutGet(r[2..5]);
  }

  lemma DecodedCrypt(r: seq<byte>, x: Suite)
    requires |r| >= HEADER && HEADER + GetLen(r) <= |r| && GetType(r) == CRYPT && DecodeCrypt(r, x).Some?
    ensures var (f, rest) := DecodeCrypt(r, x).value;
            f.Crypt? && CryptLaid(r, f.sender, f.receiver, rest, x)
  {
    hide GetLen, GetType, ReadKey, KeyName, Bytes;
    var n := GetLen(r);
    var value, tail := r[HEADER..HEADER + n], r[HEADER + n..];
    var (sender, used) := ReadKey(value, x).value;
    ReadKeyIs(value, x);
    var (receiver, more) := ReadKey(value[used..], x).value;
    ReadKeyIs(value[used..], x);
    var at := used + more;
    var nonce, box := value[at..at + NONCE], value[at + NONCE..];
    assert value[used..][more..] == nonce + box;
    FirstBytes(r);
    HeaderFits(r);
    assert CryptEntry(sender, receiver, nonce, box) == Entry(CRYPT, value);
  }

  lemma DecodedComp(r: seq<byte>, x: Suite)
    requires |r| >= HEADER + COMPRESS_HEADER && GetType(r) == COMPRESS && DecodeCompressed(r, x).Some?
    ensures var (f, rest) := DecodeCompressed(r, x).value; f.Comp? && CompLaid(r, f.cmethod, rest, x)
  {
    hide Get, Put;
    var m, size, data := r[HEADER], Get(r[HEADER + 1..HEADER + 4]), r[HEADER + COMPRESS_HEADER..];
    PutGet(r[..2]);
    PutGet(r[HEADER + 1..HEADER + 4]);
    assert r == r[..2] + r[2..5] + [m] + r[HEADER + 1..HEADER + 4] + data;
  }

  lemma DecodedIsLaid(r: seq<byte>, x: Suite)
    requires DecodeOne(r, x).Some?
    ensures Laid(r, DecodeOne(r, x).value.0, DecodeOne(r, x).value.1, x)
  {
    hide GetLen, GetType, DecodeCrypt, DecodeCompressed, CryptLaid, CompLaid, Bytes;
    if GetType(r) == COMPRESS {
      DecodedComp(r, x);
    } else {
      HeaderFits(r);
      FirstBytes(r);
      if GetType(r) == CRYPT {
        DecodedCrypt(r, x);
      } else if GetType(r) == SIG {
        var value := r[HEADER..HEADER + GetLen(r)];
        assert value == [GLIB, value[1]] + value[2..];
        assert SigEntry(value[1], value[2..]) == Entry(SIG, value);
      }
    }
  }

  lemma CryptIsDecoded(r: seq<byte>, sender: seq<byte>, receiver: seq<byte>, rest: seq<byte>, x: Suite)
    requires CryptLaid(r, sender, receiver, rest, x)
    ensures DecodeOne(r, x) == Some((Crypt(sender, receiver), rest))
  {
    hide Bytes, GetLen, GetType, KeyName, ReadKey;
    var nonce, box, tail :|
      && |nonce| == NONCE && |box| >= MAC && Small(CryptEntry(sender, receiver, nonce, box))
      && r == Bytes(CryptEntry(sender, receiver, nonce, box)) + tail
      && x.open(sender, receiver, nonce, box).Some?
      && rest == x.open(sender, receiver, nonce, box).value + tail;
    ReadEntry(CryptEntry(sender, receiver, nonce, box), tail);
    var value := r[HEADER..HEADER + GetLen(r)];
    KeyBack(sender, KeyName(receiver) + (nonce + box), x);
    KeyBack(receiver, nonce + box, x);
    KeyNameLength(sender);
    KeyNameLength(receiver);
    var used, more := |sender| + 2, |receiver| + 2;
    assert value[used..][more..] == nonce + box;
    assert value[used + more..] == value[used..][more..];
    assert value[used + more..used + more + NONCE] == nonce;
    assert value[used + more + NONCE..] == box;
  }

  lemma CompIsDecoded(r: seq<byte>, m: nat, rest: seq<byte>, x: Suite)
    requires CompLaid(r, m, rest, x)
    ensures DecodeOne(r, x) == Some((Comp(m), rest))
  {
    hide Get, Put;
    var len, size: nat, data :|
      && |len| == 3 && 16 < size <= MAX_UNCOMPRESSED
      && r == Put(COMPRESS, 2) + len + [m] + Put(size, 3) + data
      && x.inflate(m, data, size) == Some(rest);
    Limits();
    GetPut(COMPRESS, 2);
    GetPut(size, 3);
    assert r[..2] == Put(COMPRESS, 2);
    assert r[HEADER] == m && r[HEADER + 1..HEADER + 4] == Put(size, 3);
    assert r[HEADER + COMPRESS_HEADER..] == data;
  }

  lemma LaidIsDecoded(r: seq<byte>, f: Frame, rest: seq<byte>, x: Suite)
    requires Laid(r, f, rest, x)
    ensures DecodeOne(r, x) == Some((f, rest))
  {
    hide Bytes, GetLen, GetType, CryptLaid, CompLaid;
    match f
    case Plain(t, value) => ReadEntry(Entry(t, value), rest);
    case Sig(minor) =>
      var sum :| sum != [] && Small(SigEntry(minor, sum)) && r == Bytes(SigEntry(minor, sum)) + rest;
      ReadEntry(SigEntry(minor, sum), rest);
    case Crypt(sender, receiver) => CryptIsDecoded(r, sender, receiver, rest, x);
    case Comp(m) => CompIsDecoded(r, m, rest, x);
  }

  /** The decoder takes a frame from some bytes exactly if they stand for it. */
  lemma DecodeOneIff(r: seq<byte>, f: Frame, rest: seq<byte>, x: Suite)
    ensures DecodeOne(r, x) == Some((f, rest)) <==> Laid(r, f, rest, x)
  {
    hide Laid, DecodeOne;
    if DecodeOne(r, x) == Some((f, rest)) { DecodedIsLaid(r, x); }
    if Laid(r, f, rest, x) { LaidIsDecoded(r, f, rest, x); }
  }

  /** These bytes stand for these frames, one after the other, with nothing left over. */
  ghost predicate AllLaid(r: seq<byte>, frames: seq<Frame>, x: Suite)
    decreases |frames|
  {
    if frames == [] then r == []
    else r != [] && exists rest :: Laid(r, frames[0], rest, x) && AllLaid(rest, frames[1..], x)
  }

  /** The decoder finds exactly the frames that the bytes stand for, up to its bound; so no bytes stand for two lists
      of frames. */
  lemma {:induction false} DecodeFramesIff(r: seq<byte>, frames: seq<Frame>, x: Suite, fuel: nat)
    requires |frames| <= fuel
    ensures DecodeFrames(r, x, fuel) == Some(frames) <==> AllLaid(r, frames, x)
    decreases fuel
  {
    hide Laid, DecodeOne;
    if r == [] || frames == [] {
    } else {
      forall rest | true ensures DecodeOne(r, x) == Some((frames[0], rest)) <==> Laid(r, frames[0], rest, x) {
        DecodeOneIff(r, frames[0], rest, x);
      }
      if DecodeOne(r, x).Some? {
        var (f, rest) := DecodeOne(r, x).value;
        DecodeFramesIff(rest, frames[1..], x, fuel - 1);
        assert frames == [frames[0]] + frames[1..];
        if f == frames[0] && DecodeFrames(rest, x, fuel - 1).Some? {
          assert ([f] + DecodeFrames(rest, x, fuel - 1).value)[1..] == DecodeFrames(rest, x, fuel - 1).value;
        }
      }
    }
  }

  /** A packet, with what follows it: the header, the bytes of the frames of which the first is a signature, and then
      more. From the header on all of it must be entries. */
  ghost predicate PacketLaid(p: seq<byte>, d: Decoded, rest: seq<byte>, x: Suite) {
    && d.fstype < 0x1_0000 && d.flags < 0x1_0000 && d.frames != [] && d.frames[0].Sig?
    && exists body :: FRAMESET_HEADER <= |body| < 0x100_0000 && p == Header(d, |body|) + (body + rest)
                      && AllLaid(body, d.frames, x) && IsRun(body + rest)
  }

  function Header(d: Decoded, n: nat): (h: seq<byte>)
    ensures |h| == FRAMESET_HEADER
  {
    Put(d.fstype, 2) + Put(n, 3) + Put(d.flags, 2)
  }

  /** Entries, one after the other, with nothing left over. */
  ghost predicate IsRun(p: seq<byte>) {
    exists es :: Concat(es) == p && forall e :: e in es ==> Small(e)
  }

  lemma RunIff(p: seq<byte>)
    ensures IsRun(p) <==> Split(p).Some?
  {
    if Split(p).Some? {
      ConcatSplit(p);
      SplitSmall(p);
    }
    if IsRun(p) {
      var es :| Concat(es) == p && forall e :: e in es ==> Small(e);
      SplitConcat(es);
    }
  }

  lemma {:induction false} SplitSmall(p: seq<byte>)
    requires Split(p).Some?
    ensures forall e :: e in Split(p).value ==> Small(e)
    decreases |p|
  {
    hide GetType, GetLen;
    if p != [] {
      HeaderFits(p);
      SplitSmall(p[HEADER + GetLen(p)..]);
    }
  }

  lemma HeaderRead(d: Decoded, n: nat, more: seq<byte>)
    requires d.fstype < 0x1_0000 && d.flags < 0x1_0000 && n < 0x100_0000 && n <= |more|
    ensures var p := Header(d, n) + more;
            GetType(p) == d.fstype && GetLen(p) == n && Get(p[5..7]) == d.flags
  {
    hide Put, Get;
    Limits();
    GetPut(d.fstype, 2);
    GetPut(n, 3);
    GetPut(d.flags, 2);
    var p := Header(d, n) + more;
    assert p[..2] == Put(d.fstype, 2) && p[2..5] == Put(n, 3) && p[5..7] == Put(d.flags, 2);
  }

  lemma HeaderBytes(p: seq<byte>, d: Decoded)
    requires |p| >= FRAMESET_HEADER && GetLen(p) <= |p| - FRAMESET_HEADER
    requires d.fstype == GetType(p) && d.flags == Get(p[5..7])
    ensures p[..FRAMESET_HEADER] == Header(d, GetLen(p))
    ensures d.fstype < 0x1_0000 && d.flags < 0x1_0000 && GetLen(p) < 0x100_0000
  {
    hide Put, Get;
    Limits();
    PutGet(p[..2]);
    PutGet(p[2..5]);
    PutGet(p[5..7]);
    assert p[..FRAMESET_HEADER] == p[..2] + p[2..5] + p[5..7];
  }

  /** What starts with a signature that lies within it does not lead past its end, and is acceptable exactly if it is
      a run of entries. */
  lemma AcceptableIff(body: seq<byte>, frames: seq<Frame>, rest: seq<byte>, x: Suite)
    requires AllLaid(body, frames, x) && frames != [] && frames[0].Sig?
    ensures Acceptable(body + rest) <==> IsRun(body + rest)
  {
    hide Bytes, GetLen, GetType, AllLaid, Split;
    assert body != [] && exists r :: Laid(body, frames[0], r, x) by { AllLaidUnfolds(body, frames, x); }
    var r :| Laid(body, frames[0], r, x);
    var sum :| sum != [] && Small(SigEntry(frames[0].minor, sum)) && body == Bytes(SigEntry(frames[0].minor, sum)) + r;
    var e := SigEntry(frames[0].minor, sum);
    assert body + rest == Bytes(e) + (r + rest);
    ReadEntry(e, r + rest);
    RunIff(body + rest);
  }

  lemma AllLaidUnfolds(r: seq<byte>, frames: seq<Frame>, x: Suite)
    requires AllLaid(r, frames, x) && frames != []
    ensures r != [] && exists rest :: Laid(r, frames[0], rest, x)
  {
  }

  lemma DecodedIsPacket(p: seq<byte>, x: Suite, fuel: nat)
    requires Decode(p, x, fuel).Some? && |Decode(p, x, fuel).value.0.frames| <= fuel
    ensures PacketLaid(p, Decode(p, x, fuel).value.0, Decode(p, x, fuel).value.1, x)
  {
    hide GetLen, GetType, Get, AllLaid, Acceptable, DecodeFrames, Header, IsRun;
    var (d, rest) := Decode(p, x, fuel).value;
    var body := p[FRAMESET_HEADER..FRAMESET_HEADER + GetLen(p)];
    HeaderBytes(p, d);
    DecodeFramesIff(body, d.frames, x, fuel);
    assert p[FRAMESET_HEADER..] == body + rest;
    assert p == p[..FRAMESET_HEADER] + p[FRAMESET_HEADER..];
    AcceptableIff(body, d.frames, rest, x);
  }

  lemma PacketIsDecoded(p: seq<byte>, d: Decoded, body: seq<byte>, rest: seq<byte>, x: Suite, fuel: nat)
    requires d.fstype < 0x1_0000 && d.flags < 0x1_0000 && d.frames != [] && d.frames[0].Sig? && |d.frames| <= fuel
    requires FRAMESET_HEADER <= |body| < 0x100_0000 && p == Header(d, |body|) + (body + rest)
    requires AllLaid(body, d.frames, x) && IsRun(body + rest)
    ensures Decode(p, x, fuel) == Some((d, rest))
  {
    hide GetLen, GetType, Get, AllLaid, Acceptable, DecodeFrames, Header, IsRun;
    HeaderRead(d, |body|, body + rest);
    assert p[FRAMESET_HEADER..] == body + rest;
    assert p[FRAMESET_HEADER..FRAMESET_HEADER + |body|] == body && p[FRAMESET_HEADER + |body|..] == rest;
    DecodeFramesIff(body, d.frames, x, fuel);
    AcceptableIff(body, d.frames, rest, x);
  }

  /** The decoder takes a frameset from a packet exactly if the packet is laid out as one. */
  lemma DecodeIff(p: seq<byte>, d: Decoded, rest: seq<byte>, x: Suite, fuel: nat)
    requires |d.frames| <= fuel
    ensures Decode(p, x, fuel) == Some((d, rest)) <==> PacketLaid(p, d, rest, x)
  {
    hide AllLaid, Decode, Header, IsRun;
    if Decode(p, x, fuel) == Some((d, rest)) { DecodedIsPacket(p, x, fuel); }
    if PacketLaid(p, d, rest, x) {
      var body :| FRAMESET_HEADER <= |body| < 0x100_0000 && p == Header(d, |body|) + (body + rest)
                  && AllLaid(body, d.frames, x) && IsRun(body + rest);
      PacketIsDecoded(p, d, body, rest, x, fuel);
    }
  }
}
