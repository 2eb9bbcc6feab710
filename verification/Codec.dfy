/** Packets: how a frameset is laid out from back to front, and how a packet is taken apart from front to back. */
module Codec {
  import opened FrameSets
  import opened Tlv

  const CRYPT := 2
  const COMPRESS := 3
  const FRAMESET_HEADER := 7
  const COMPRESS_HEADER := 4
  const NONCE := 24
  const MAC := 16
  const MAX_UNCOMPRESSED := 4096 * 1024
  const MAX_KEY_NAME := 128
  const GLIB := 1

  /** Frames as the objects in a frameset's list. */
  datatype Frame =
    | Plain(ftype: nat, value: seq<byte>)
    | Sig(minor: nat)
    | Crypt(sender: seq<byte>, receiver: seq<byte>)
    | Comp(cmethod: nat)

  /** The foreign functions that packets depend on: checksums, public-key encryption, compression, and the checks
      that the constructors of the individual frame classes make. */
  datatype Suite = Suite(
    cksumSize: nat -> nat,
    cksum: (nat, seq<byte>) -> seq<byte>,
    knownKey: seq<byte> -> bool,
    seal: (seq<byte>, seq<byte>, seq<byte>, seq<byte>) -> seq<byte>,          // sender, receiver, nonce, plain text
    open: (seq<byte>, seq<byte>, seq<byte>, seq<byte>) -> Option<seq<byte>>,  // sender, receiver, nonce, box
    knownMethod: nat -> bool,
    deflate: (nat, seq<byte>) -> seq<byte>,
    inflate: (nat, seq<byte>, nat) -> Option<seq<byte>>,                      // method, data, largest result
    accepts: (nat, seq<byte>) -> bool)

  /** What is assumed of them: opening undoes sealing, inflating undoes deflating, checksums have their size. */
  ghost predicate Inverse(x: Suite) {
    && (forall m, s :: |x.cksum(m, s)| == x.cksumSize(m))
    && (forall a, b, n, s :: |x.seal(a, b, n, s)| == MAC + |s|)
    && (forall a, b, n, s :: x.open(a, b, n, x.seal(a, b, n, s)) == Some(s))
    && (forall m, s :: x.inflate(m, x.deflate(m, s), |s|) == Some(s))
  }

  /** The assumptions can be met: here by functions that hide and shorten nothing. */
  lemma InverseIsPossible() returns (x: Suite)
    ensures Inverse(x) && x.cksumSize(1) > 1
  {
    var room: seq<byte> := seq(MAC, i => 0);
    x := Suite(m => 2, (m, s) => [0, 0], k => true, (a, b, n, s) => room + s,
               (a, b, n, t) => if |t| >= MAC then Some(t[MAC..]) else None,
               m => true, (m, s) => s, (m, t, n) => Some(t), (t, v) => true);
    forall a, b, n, s ensures x.open(a, b, n, x.seal(a, b, n, s)) == Some(s) {
      assert (room + s)[MAC..] == s;
    }
  }

  // ---------- Layout ----------

  /** A key name with its length, counting the NUL that ends it. */
  function KeyName(id: seq<byte>): seq<byte>
    requires |id| < 255
  {
    [|id| + 1] + id + [0]
  }

  /** A key name that the decoder takes. */
  predicate Named(id: seq<byte>, x: Suite) {
    |id| < 255 && 0 !in id && x.knownKey(id)
  }

  predicate GoodKey(id: seq<byte>, x: Suite) {
    1 <= |id| < MAX_KEY_NAME && 0 !in id && x.knownKey(id)
  }

  /** The space that a frame's own data takes in a packet before the fill, without its header. */
  function Length(f: Frame, x: Suite): nat {
    match f
    case Plain(_, value) => |value|
    case Sig(minor) => 2 + x.cksumSize(minor)
    case Crypt(sender, receiver) => 4 + |sender| + |receiver| + NONCE + MAC
    case Comp(_) => COMPRESS_HEADER
  }

  function DataSpace(f: Frame, x: Suite): nat {
    HEADER + Length(f, x)
  }

  /** What may be put in a packet. */
  predicate FrameOk(f: Frame, x: Suite) {
    match f
    case Plain(t, value) => t < BAD16 && t != SIG && t != CRYPT && t != COMPRESS && |value| < BAD24
      && x.accepts(t, value)
    case Sig(minor) => minor < 256 && x.cksumSize(minor) > 1
    case Crypt(sender, receiver) => GoodKey(sender, x) && GoodKey(receiver, x)
    case Comp(m) => m < 256 && x.knownMethod(m)
  }

  /** A frame's entry in front of bytes that are already in place. A signature covers them; encryption and
      compression swallow them. */
  function EntryOf(f: Frame, rest: seq<byte>, nonce: seq<byte>, x: Suite): Entry
    requires FrameOk(f, x)
  {
    match f
    case Plain(t, value) => Entry(t, value)
    case Sig(minor) => Entry(SIG, [GLIB, minor] + x.cksum(minor, rest))
    case Crypt(sender, receiver) =>
      Entry(CRYPT, KeyName(sender) + KeyName(receiver) + nonce + x.seal(sender, receiver, nonce, rest))
    case Comp(m) => Entry(COMPRESS, [m] + Put(|rest|, 3) + x.deflate(m, rest))
  }

  predicate Swallows(f: Frame) {
    f.Crypt? || f.Comp?
  }

  /** The bytes of a list of frames, filled from the back. */
  function Fill(frames: seq<Frame>, nonce: seq<byte>, x: Suite): seq<byte>
    requires forall f :: f in frames ==> FrameOk(f, x)
  {
    if frames == [] then []
    else
      var rest := Fill(frames[1..], nonce, x);
      Bytes(EntryOf(frames[0], rest, nonce, x)) + if Swallows(frames[0]) then [] else rest
  }

  // ---------- Preparing the list of frames ----------

  /** Without the special frames of an earlier packet at its front. */
  function DropSpecial(frames: seq<Frame>): seq<Frame> {
    if frames != [] && !frames[0].Plain? then DropSpecial(frames[1..]) else frames
  }

  function TotalSpace(frames: seq<Frame>, x: Suite): nat {
    if frames == [] then 0 else DataSpace(frames[0], x) + TotalSpace(frames[1..], x)
  }

  /** How a packet is to be made: an optional encryption frame, an optional compression method with a threshold. */
  datatype Options = Options(minor: nat, crypt: Option<Frame>, comp: Option<(nat, nat)>)

  predicate OptionsOk(o: Options, x: Suite) {
    && FrameOk(Sig(o.minor), x)
    && (o.crypt.Some? ==> o.crypt.value.Crypt? && FrameOk(o.crypt.value, x))
    && (o.comp.Some? ==> FrameOk(Comp(o.comp.value.0), x))
  }

  predicate Compressed(frames: seq<Frame>, o: Options, x: Suite): (c: bool)
    ensures c ==> o.comp.Some?
  {
    o.comp.Some? && FRAMESET_HEADER + TotalSpace(DropSpecial(frames), x) > o.comp.value.1
  }

  /** The signature first, then encryption, then compression, then the payload, then an END frame. */
  function Prepared(frames: seq<Frame>, o: Options, x: Suite): seq<Frame> {
    var payload := DropSpecial(frames);
    var c := if Compressed(frames, o, x) then [Comp(o.comp.value.0)] + payload else payload;
    var e := if o.crypt.Some? then [o.crypt.value] + c else c;
    var all := [Sig(o.minor)] + e;
    var last := all[|all| - 1];
    if last.Plain? && last.ftype == END then all else all + [Plain(END, [])]
  }

  /** A whole packet: type, length and flags of the frameset, then its frames. */
  function PacketBytes(fstype: nat, flags: nat, all: seq<Frame>, nonce: seq<byte>, x: Suite): seq<byte>
    requires forall f :: f in all ==> FrameOk(f, x)
  {
    var body := Fill(all, nonce, x);
    Put(fstype, 2) + Put(|body|, 3) + Put(flags, 2) + body
  }

  // ---------- Decoding ----------

  /** Position of the first NUL. */
  function Strnlen(s: seq<byte>): (n: nat)
    ensures n <= |s|
    ensures n < |s| ==> s[n] == 0
    ensures 0 !in s[..n]
  {
    if s == [] || s[0] == 0 then 0
    else
      var n := 1 + Strnlen(s[1..]);
      assert s[..n] == [s[0]] + s[1..][..n - 1];
      n
  }

  /** A key name at the start of some bytes, and how many bytes it takes. */
  function ReadKey(s: seq<byte>, x: Suite): Option<(seq<byte>, nat)> {
    if |s| < 2 || s[0] == 0 || 1 + s[0] > |s| then None
    else
      var n: nat := s[0];
      var name := s[1..1 + n];
      if Strnlen(name) != n - 1 || !x.knownKey(name[..n - 1]) then None else Some((name[..n - 1], 1 + n))
  }

  /** Decrypt in place: the plain text takes the place of the cipher text, and decoding goes on with it. */
  function DecodeCrypt(r: seq<byte>, x: Suite): Option<(Frame, seq<byte>)>
    requires |r| >= HEADER && HEADER + GetLen(r) <= |r|
  {
    var value := r[HEADER..HEADER + GetLen(r)];
    match ReadKey(value, x)
    case None => None
    case Some((sender, used)) =>
      KeyUsed(value, x);
      match ReadKey(value[used..], x)
      case None => None
      case Some((receiver, more)) =>
        KeyUsed(value[used..], x);
        var at := used + more;
        if at + NONCE + MAC > |value| then None
        else
          match x.open(sender, receiver, value[at..at + NONCE], value[at + NONCE..])
          case None => None
          case Some(plain) => Some((Crypt(sender, receiver), plain + r[HEADER + GetLen(r)..]))
  }

  lemma KeyUsed(s: seq<byte>, x: Suite)
    ensures ReadKey(s, x).Some? ==> ReadKey(s, x).value.1 <= |s|
  {
  }

  /** Decompress: the result replaces everything that is left of the packet. */
  function DecodeCompressed(r: seq<byte>, x: Suite): Option<(Frame, seq<byte>)>
    requires |r| >= HEADER + COMPRESS_HEADER
  {
    var m, size := r[HEADER], Get(r[HEADER + 1..HEADER + 4]);
    if size > MAX_UNCOMPRESSED || size <= 16 || !x.knownMethod(m) then None
    else
      match x.inflate(m, r[HEADER + COMPRESS_HEADER..], size)
      case None => None
      case Some(out) => Some((Comp(m), out))
  }

  /** The frame at the start of what is left of a packet, and what is left after it. */
  function DecodeOne(r: seq<byte>, x: Suite): Option<(Frame, seq<byte>)> {
    var t, n := GetType(r), GetLen(r);
    if t == COMPRESS then
      if |r| < HEADER + COMPRESS_HEADER then None else DecodeCompressed(r, x)
    else if |r| < HEADER || HEADER + n > |r| then None
    else if t == CRYPT then DecodeCrypt(r, x)
    else
      var value, rest := r[HEADER..HEADER + n], r[HEADER + n..];
      if t == SIG then
        if n <= 2 || value[0] != GLIB || x.cksumSize(value[1]) <= 1 then None else Some((Sig(value[1]), rest))
      else if t == BAD16 || n == BAD24 || !x.accepts(t, value) then None
      else Some((Plain(t, value), rest))
  }

  /** All frames up to the end of what is left. Compression can nest, so the number of frames is bounded by fuel. */
  function DecodeFrames(r: seq<byte>, x: Suite, fuel: nat): Option<seq<Frame>>
    decreases fuel
  {
    if r == [] then Some([])
    else if fuel == 0 then None
    else
      match DecodeOne(r, x)
      case None => None
      case Some((f, rest)) =>
        match DecodeFrames(rest, x, fuel - 1)
        case None => None
        case Some(more) => Some([f] + more)
  }

  datatype Decoded = Decoded(fstype: nat, flags: nat, frames: seq<Frame>)

  /** What the check of a received packet accepts. */
  predicate Acceptable(body: seq<byte>) {
    FirstOverruns(body) || (body != [] && Split(body).Some? && GetType(body) == SIG)
  }

  /** The frameset at the start of a packet, and what follows it. Its first frame must be a signature. */
  function Decode(p: seq<byte>, x: Suite, fuel: nat): Option<(Decoded, seq<byte>)> {
    if |p| < FRAMESET_HEADER then None
    else
      var n := GetLen(p);
      if n > |p| - FRAMESET_HEADER || n < FRAMESET_HEADER then None
      else if !Acceptable(p[FRAMESET_HEADER..]) then None
      else
        match DecodeFrames(p[FRAMESET_HEADER..FRAMESET_HEADER + n], x, fuel)
        case None => None
        case Some(frames) =>
          if frames == [] || !frames[0].Sig? then None
          else Some((Decoded(GetType(p), Get(p[5..7]), frames), p[FRAMESET_HEADER + n..]))
  }

  /** The check of a signature over everything that follows it. */
  predicate SignatureOk(body: seq<byte>, x: Suite) {
    && |body| >= HEADER && HEADER + GetLen(body) <= |body| && GetLen(body) > 2
    && body[HEADER] == GLIB
    && x.cksumSize(body[HEADER + 1]) >= 1
    && GetLen(body) == x.cksumSize(body[HEADER + 1]) + 2
    && Next(body, 0).Some?
    && body[HEADER + 2..HEADER + GetLen(body)] == x.cksum(body[HEADER + 1], body[Next(body, 0).value..])
  }

  // ---------- Round trip ----------

  /** The sizes that the length fields can hold, and the decompressor's limits. */
  predicate SizesOk(frames: seq<Frame>, nonce: seq<byte>, x: Suite)
    requires forall f :: f in frames ==> FrameOk(f, x)
  {
    frames != [] ==>
      var rest := Fill(frames[1..], nonce, x);
      && Small(EntryOf(frames[0], rest, nonce, x))
      && (frames[0].Comp? ==> |rest| < 0x100_0000)
      && SizesOk(frames[1..], nonce, x)
  }

  /** What a compression frame would have to decompress to is within the decoder's limits. */
  predicate Expandable(frames: seq<Frame>, nonce: seq<byte>, x: Suite)
    requires forall f :: f in frames ==> FrameOk(f, x)
  {
    frames != [] ==>
      && (frames[0].Comp? ==> 16 < |Fill(frames[1..], nonce, x)| <= MAX_UNCOMPRESSED)
      && Expandable(frames[1..], nonce, x)
  }

  lemma KeyBack(id: seq<byte>, rest: seq<byte>, x: Suite)
    requires Named(id, x)
    ensures var s := KeyName(id) + rest;
            ReadKey(s, x) == Some((id, |id| + 2)) && s[|id| + 2..] == rest
  {
    var s := KeyName(id) + rest;
    var name := s[1..1 + s[0]];
    assert name == id + [0];
    assert name[..|id|] == id;
    StrnlenIs(id, [0]);
  }

  lemma {:induction false} StrnlenIs(s: seq<byte>, rest: seq<byte>)
    requires 0 !in s && rest != [] && rest[0] == 0
    ensures Strnlen(s + rest) == |s|
  {
    if s == [] {
      assert s + rest == rest;
    } else {
      assert (s + rest)[1..] == s[1..] + rest;
      assert 0 !in s[1..];
      StrnlenIs(s[1..], rest);
    }
  }

  lemma CryptBack(f: Frame, rest: seq<byte>, nonce: seq<byte>, x: Suite)
    requires Inverse(x) && f.Crypt? && FrameOk(f, x) && |nonce| == NONCE && Small(EntryOf(f, rest, nonce, x))
    ensures DecodeOne(Bytes(EntryOf(f, rest, nonce, x)), x) == Some((f, rest))
  {
    hide Bytes, GetLen, GetType, KeyName, ReadKey;
    var e := EntryOf(f, rest, nonce, x);
    var r := Bytes(e);
    ReadEntry(e, []);
    assert r + [] == r;
    var box := x.seal(f.sender, f.receiver, nonce, rest);
    var value := r[HEADER..HEADER + GetLen(r)];
    assert value == KeyName(f.sender) + (KeyName(f.receiver) + (nonce + box));
    KeyBack(f.sender, KeyName(f.receiver) + (nonce + box), x);
    KeyBack(f.receiver, nonce + box, x);
    var used, more := |f.sender| + 2, |f.receiver| + 2;
    KeyNameLength(f.sender);
    KeyNameLength(f.receiver);
    assert value[used..][more..] == nonce + box;
    assert value[used + more..] == value[used..][more..];
    assert value[used + more..used + more + NONCE] == nonce;
    assert value[used + more + NONCE..] == box;
    assert rest + r[HEADER + GetLen(r)..] == rest;
  }

  /** A compressed tail is taken apart again exactly if its size is within the decoder's limits. */
  lemma CompBack(f: Frame, rest: seq<byte>, nonce: seq<byte>, x: Suite)
    requires Inverse(x) && f.Comp? && FrameOk(f, x) && Small(EntryOf(f, rest, nonce, x)) && |rest| < 0x100_0000
    ensures DecodeOne(Bytes(EntryOf(f, rest, nonce, x)), x)
            == if 16 < |rest| <= MAX_UNCOMPRESSED then Some((f, rest)) else None
  {
    hide Bytes, GetLen, GetType, Put, Get;
    var e := EntryOf(f, rest, nonce, x);
    var r := Bytes(e);
    ReadEntry(e, []);
    assert r + [] == r;
    assert r[HEADER..] == e.value by { assert r[HEADER..HEADER + |e.value|] == r[HEADER..]; }
    assert e.value == [f.cmethod] + (Put(|rest|, 3) + x.deflate(f.cmethod, rest));
    assert r[HEADER + 1..HEADER + 4] == e.value[1..4] == Put(|rest|, 3);
    Limits();
    GetPut(|rest|, 3);
    assert r[HEADER + COMPRESS_HEADER..] == e.value[COMPRESS_HEADER..] == x.deflate(f.cmethod, rest);
  }

  lemma PlainBack(f: Frame, rest: seq<byte>, nonce: seq<byte>, x: Suite)
    requires Inverse(x) && !Swallows(f) && FrameOk(f, x) && Small(EntryOf(f, rest, nonce, x))
    ensures DecodeOne(Bytes(EntryOf(f, rest, nonce, x)) + rest, x) == Some((f, rest))
  {
    hide Bytes, GetLen, GetType;
    ReadEntry(EntryOf(f, rest, nonce, x), rest);
  }

  lemma KeyNameLength(id: seq<byte>)
    requires |id| < 255
    ensures |KeyName(id)| == |id| + 2
  {
  }

  /** Decoding what was filled gives the frames back, exactly if every compressed part is within the limits. */
  lemma {:induction false} DecodeFill(frames: seq<Frame>, nonce: seq<byte>, x: Suite, fuel: nat)
    requires forall f :: f in frames ==> FrameOk(f, x)
    requires Inverse(x) && |nonce| == NONCE && SizesOk(frames, nonce, x) && fuel >= |frames|
    ensures DecodeFrames(Fill(frames, nonce, x), x, fuel)
            == if Expandable(frames, nonce, x) then Some(frames) else None
    decreases |frames|
  {
    hide Inverse, FrameOk, Bytes, EntryOf, DecodeOne;
    if frames == [] {
    } else {
      var f := frames[0];
      var rest := Fill(frames[1..], nonce, x);
      var e := EntryOf(f, rest, nonce, x);
      assert Fill(frames, nonce, x) == Bytes(e) + if Swallows(f) then [] else rest;
      assert Bytes(e) + [] == Bytes(e);
      DecodeFill(frames[1..], nonce, x, fuel - 1);
      assert frames == [f] + frames[1..];
      match f
      case Crypt(_, _) => CryptBack(f, rest, nonce, x);
      case Comp(_) => CompBack(f, rest, nonce, x);
      case _ => PlainBack(f, rest, nonce, x);
    }
  }

  // ---------- Framesets that are built ----------

  lemma {:induction false} DropSpecialPlain(frames: seq<Frame>)
    ensures DropSpecial(frames) == [] || DropSpecial(frames)[0].Plain?
    ensures forall f :: f in DropSpecial(frames) ==> f in frames
  {
    if frames == [] || frames[0].Plain? {
    } else {
      DropSpecialPlain(frames[1..]);
    }
  }

  predicate Payload(frames: seq<Frame>, x: Suite) {
    forall f :: f in frames ==> f.Plain? && FrameOk(f, x)
  }

  predicate EndsInEnd(frames: seq<Frame>) {
    frames != [] && frames[|frames| - 1].Plain? && frames[|frames| - 1].ftype == END
  }

  /** The payload with its END frame. */
  function Ended(payload: seq<Frame>): seq<Frame> {
    if EndsInEnd(payload) then payload else payload + [Plain(END, [])]
  }

  /** The special frames that are put in front. */
  function Front(frames: seq<Frame>, o: Options, x: Suite): (front: seq<Frame>)
    ensures 1 <= |front| <= 3 && front[0] == Sig(o.minor)
  {
    [Sig(o.minor)]
    + (if o.crypt.Some? then [o.crypt.value] else [])
    + (if Compressed(frames, o, x) then [Comp(o.comp.value.0)] else [])
  }

  lemma PreparedIs(frames: seq<Frame>, o: Options, x: Suite)
    requires OptionsOk(o, x)
    ensures Prepared(frames, o, x) == Front(frames, o, x) + Ended(DropSpecial(frames))
  {
    hide FrameOk, Compressed, DropSpecial;
    var payload := DropSpecial(frames);
    var front := Front(frames, o, x);
    assert !front[|front| - 1].Plain?;
    var all := front + payload;
    if payload != [] { assert all[|all| - 1] == payload[|payload| - 1]; }
    if !EndsInEnd(payload) { assert all + [Plain(END, [])] == front + (payload + [Plain(END, [])]); }
    var c := if Compressed(frames, o, x) then [Comp(o.comp.value.0)] + payload else payload;
    assert all == [Sig(o.minor)] + (if o.crypt.Some? then [o.crypt.value] + c else c);
  }

  lemma {:induction false} DropFront(front: seq<Frame>, rest: seq<Frame>)
    requires (forall f :: f in front ==> !f.Plain?) && (rest == [] || rest[0].Plain?)
    ensures DropSpecial(front + rest) == rest
  {
    if front == [] {
      assert front + rest == rest;
    } else {
      assert (front + rest)[0] == front[0] && (front + rest)[1..] == front[1..] + rest;
      DropFront(front[1..], rest);
    }
  }

  lemma {:induction false} SpaceSnoc(frames: seq<Frame>, f: Frame, x: Suite)
    ensures TotalSpace(frames + [f], x) == TotalSpace(frames, x) + DataSpace(f, x)
  {
    if frames == [] {
      assert frames + [f] == [f];
    } else {
      assert (frames + [f])[0] == frames[0] && (frames + [f])[1..] == frames[1..] + [f];
      SpaceSnoc(frames[1..], f, x);
    }
  }

  /** Building a packet again from the frames of the last one, as for a retransmission, gives the same frames unless
      the END frame that has been added since takes the size over the compression threshold. */
  lemma PreparedAgainIff(frames: seq<Frame>, o: Options, x: Suite)
    requires OptionsOk(o, x)
    ensures var payload := DropSpecial(frames);
            var size := FRAMESET_HEADER + TotalSpace(payload, x);
            Prepared(Prepared(frames, o, x), o, x) == Prepared(frames, o, x)
            <==> o.comp.None? || EndsInEnd(payload) || !(size <= o.comp.value.1 < size + HEADER)
  {
    hide FrameOk, Prepared, DropSpecial;
    var all := Prepared(frames, o, x);
    var payload := DropSpecial(frames);
    var ended := Ended(payload);
    PreparedIs(frames, o, x);
    DropSpecialPlain(frames);
    DropFront(Front(frames, o, x), ended);
    PreparedIs(all, o, x);
    if !EndsInEnd(payload) { SpaceSnoc(payload, Plain(END, []), x); }
    var front, again := Front(frames, o, x), Front(all, o, x);
    assert Ended(ended) == ended;
    assert |front + ended| == |front| + |ended| && |again + ended| == |again| + |ended|;
  }

  // ---------- The bytes of a built packet ----------

  /** The entries that can be told apart without decrypting or decompressing. */
  function Visible(frames: seq<Frame>, nonce: seq<byte>, x: Suite): seq<Entry>
    requires forall f :: f in frames ==> FrameOk(f, x)
  {
    if frames == [] then []
    else
      [EntryOf(frames[0], Fill(frames[1..], nonce, x), nonce, x)]
      + if Swallows(frames[0]) then [] else Visible(frames[1..], nonce, x)
  }

  /** At every step of the fill, the bytes from the current offset to the end are a run of entries. */
  lemma {:induction false} FillIsRun(frames: seq<Frame>, nonce: seq<byte>, x: Suite)
    requires forall f :: f in frames ==> FrameOk(f, x)
    ensures Fill(frames, nonce, x) == Concat(Visible(frames, nonce, x))
    ensures SizesOk(frames, nonce, x) ==> forall e :: e in Visible(frames, nonce, x) ==> Small(e)
    ensures SizesOk(frames, nonce, x) ==> Split(Fill(frames, nonce, x)) == Some(Visible(frames, nonce, x))
  {
    hide FrameOk, EntryOf, Bytes, Small, Split;
    if frames != [] {
      FillIsRun(frames[1..], nonce, x);
      var v := Visible(frames, nonce, x);
      assert v[1..] == if Swallows(frames[0]) then [] else Visible(frames[1..], nonce, x);
    }
    if SizesOk(frames, nonce, x) { SplitConcat(Visible(frames, nonce, x)); }
  }

  /** Iterating over an unencrypted, uncompressed packet lists exactly its frames. */
  lemma IterationListsFrames(frames: seq<Frame>, nonce: seq<byte>, x: Suite)
    requires frames != [] && forall f :: f in frames ==> FrameOk(f, x) && !Swallows(f)
    requires SizesOk(frames, nonce, x)
    requires forall i :: 0 <= i < |frames| - 1 && frames[i].Plain? ==> frames[i].ftype != END
    ensures var p := Fill(frames, nonce, x);
            var listed := Visible(frames, nonce, x);
            && |p| >= HEADER && HEADER + GetLen(p) <= |p| && Listed(p, 0) == listed
            && |listed| == |frames|
            && forall i :: 0 <= i < |frames| ==>
                 listed[i] == EntryOf(frames[i], Fill(frames[i + 1..], nonce, x), nonce, x)
  {
    hide FrameOk, Bytes, Small, Split, GetLen, GetType, Listed;
    FillIsRun(frames, nonce, x);
    VisibleAt(frames, nonce, x);
    var es := Visible(frames, nonce, x);
    forall i | 0 <= i < |es| - 1 ensures es[i].etype != END { assert frames[i] in frames; }
    IterationLists([], es);
    UpToEndIsAll(es);
    var p := Fill(frames, nonce, x);
    assert [] + Concat(es) == p && p[0..] == p;
  }

  lemma {:induction false} VisibleAt(frames: seq<Frame>, nonce: seq<byte>, x: Suite)
    requires forall f :: f in frames ==> FrameOk(f, x) && !Swallows(f)
    ensures var listed := Visible(frames, nonce, x);
            && |listed| == |frames|
            && forall i :: 0 <= i < |frames| ==>
                 listed[i] == EntryOf(frames[i], Fill(frames[i + 1..], nonce, x), nonce, x)
  {
    hide FrameOk, EntryOf, Fill;
    if frames == [] {
    } else {
      VisibleAt(frames[1..], nonce, x);
      forall i | 0 <= i < |frames|
        ensures Visible(frames, nonce, x)[i] == EntryOf(frames[i], Fill(frames[i + 1..], nonce, x), nonce, x)
      {
        if i > 0 { assert frames[1..][i - 1] == frames[i] && frames[1..][i..] == frames[i + 1..]; }
      }
    }
  }

  /** The signature at the front of what was filled verifies. */
  lemma SignatureVerifies(minor: nat, frames: seq<Frame>, nonce: seq<byte>, x: Suite)
    requires Inverse(x) && frames != [] && FrameOk(Sig(minor), x) && forall f :: f in frames ==> FrameOk(f, x)
    requires SizesOk([Sig(minor)] + frames, nonce, x)
    ensures SignatureOk(Fill([Sig(minor)] + frames, nonce, x), x)
  {
    hide Bytes, GetLen, GetType, Split;
    var all := [Sig(minor)] + frames;
    assert all[1..] == frames;
    var rest := Fill(frames, nonce, x);
    var e := EntryOf(Sig(minor), rest, nonce, x);
    var body := Fill(all, nonce, x);
    assert body == Bytes(e) + rest;
    ReadEntry(e, rest);
    var next := HEADER + |e.value|;
    FillHead(frames, nonce, x);
    assert body[0..] == body && body[next..] == rest;
    assert Next(body, 0) == Some(next);
    assert body[HEADER..next] == e.value;
    assert body[HEADER] == e.value[0] && body[HEADER + 1] == e.value[1] && body[HEADER + 2..next] == e.value[2..];
  }

  /** The first entry of what was filled lies within it. */
  lemma FillHead(frames: seq<Frame>, nonce: seq<byte>, x: Suite)
    requires frames != [] && (forall f :: f in frames ==> FrameOk(f, x)) && SizesOk(frames, nonce, x)
    ensures var p := Fill(frames, nonce, x);
            |p| >= HEADER && HEADER + GetLen(p) <= |p|
    ensures GetType(Fill(frames, nonce, x)) == EntryOf(frames[0], Fill(frames[1..], nonce, x), nonce, x).etype
  {
    hide Bytes, GetLen, GetType, FrameOk, EntryOf;
    var rest := Fill(frames[1..], nonce, x);
    var e := EntryOf(frames[0], rest, nonce, x);
    var tail := if Swallows(frames[0]) then [] else rest;
    assert Fill(frames, nonce, x) == Bytes(e) + tail;
    ReadEntry(e, tail);
  }

  // ---------- The main theorem ----------

  lemma {:induction false} PlainExpandable(frames: seq<Frame>, nonce: seq<byte>, x: Suite)
    requires Payload(frames, x)
    ensures Expandable(frames, nonce, x)
  {
    hide FrameOk, Fill;
    if frames == [] {
    } else {
      assert frames[0] in frames;
      PlainExpandable(frames[1..], nonce, x);
    }
  }

  /** The decoder's limits concern just the compressed part, if there is one. */
  lemma ExpandableIff(frames: seq<Frame>, o: Options, nonce: seq<byte>, x: Suite)
    requires OptionsOk(o, x) && Payload(DropSpecial(frames), x) && FrameOk(Plain(END, []), x)
    ensures forall f :: f in Prepared(frames, o, x) ==> FrameOk(f, x)
    ensures forall f :: f in Ended(DropSpecial(frames)) ==> FrameOk(f, x)
    ensures Expandable(Prepared(frames, o, x), nonce, x)
            <==> (Compressed(frames, o, x) ==> 16 < |Fill(Ended(DropSpecial(frames)), nonce, x)| <= MAX_UNCOMPRESSED)
  {
    hide FrameOk, Fill, Compressed, DropSpecial, Expandable;
    PreparedIs(frames, o, x);
    var front, ended := Front(frames, o, x), Ended(DropSpecial(frames));
    assert Payload(ended, x);
    PlainExpandable(ended, nonce, x);
    forall f | f in front ensures FrameOk(f, x) {
      assert f == Sig(o.minor) || (o.crypt.Some? && f == o.crypt.value)
             || (Compressed(frames, o, x) && f == Comp(o.comp.value.0));
    }
    var inner := if Compressed(frames, o, x) then [Comp(o.comp.value.0)] + ended else ended;
    var mid := if o.crypt.Some? then [o.crypt.value] + inner else inner;
    assert front + ended == [Sig(o.minor)] + mid;
    ExpandableStep(Sig(o.minor), mid, nonce, x);
    if o.crypt.Some? { ExpandableStep(o.crypt.value, inner, nonce, x); }
    if Compressed(frames, o, x) { ExpandableStep(Comp(o.comp.value.0), ended, nonce, x); }
  }

  lemma ExpandableStep(f: Frame, rest: seq<Frame>, nonce: seq<byte>, x: Suite)
    requires FrameOk(f, x) && forall g :: g in rest ==> FrameOk(g, x)
    ensures Expandable([f] + rest, nonce, x)
            <==> (f.Comp? ==> 16 < |Fill(rest, nonce, x)| <= MAX_UNCOMPRESSED) && Expandable(rest, nonce, x)
  {
    hide FrameOk, Fill;
    assert ([f] + rest)[1..] == rest;
  }

  lemma HeaderParts(a: seq<byte>, b: seq<byte>, c: seq<byte>, body: seq<byte>)
    requires |a| == 2 && |b| == 3 && |c| == 2
    ensures var p := a + b + c + body;
            && |p| == FRAMESET_HEADER + |body|
            && p[..2] == a && p[2..5] == b && p[5..7] == c
            && p[FRAMESET_HEADER..] == body && p[FRAMESET_HEADER..FRAMESET_HEADER + |body|] == body
  {
  }

  lemma HeaderBack(fstype: nat, flags: nat, body: seq<byte>)
    requires fstype < 0x1_0000 && flags < 0x1_0000 && |body| < 0x100_0000
    ensures var p := Put(fstype, 2) + Put(|body|, 3) + Put(flags, 2) + body;
            && GetType(p) == fstype && GetLen(p) == |body| && Get(p[5..7]) == flags
            && p[FRAMESET_HEADER..] == body && p[FRAMESET_HEADER..FRAMESET_HEADER + |body|] == body
  {
    hide Put, Get;
    Limits();
    GetPut(fstype, 2);
    GetPut(|body|, 3);
    GetPut(flags, 2);
    HeaderParts(Put(fstype, 2), Put(|body|, 3), Put(flags, 2), body);
  }

  /** Decoding a built packet gives exactly one frameset, with the same type, flags and frames in order, for every
      choice of signature, encryption and compression; with compression exactly if what was compressed is larger than
      16 bytes and within the decoder's maximum. */
  lemma DecodeBuilt(fstype: nat, flags: nat, frames: seq<Frame>, o: Options, nonce: seq<byte>, x: Suite, fuel: nat)
    requires Inverse(x) && OptionsOk(o, x) && |nonce| == NONCE && fstype < 0x1_0000 && flags < 0x1_0000
    requires Payload(DropSpecial(frames), x) && FrameOk(Plain(END, []), x)
    requires forall f :: f in Prepared(frames, o, x) ==> FrameOk(f, x)
    requires SizesOk(Prepared(frames, o, x), nonce, x) && |Fill(Prepared(frames, o, x), nonce, x)| < 0x100_0000
    requires fuel >= |Prepared(frames, o, x)|
    ensures forall f :: f in Ended(DropSpecial(frames)) ==> FrameOk(f, x)
    ensures var all := Prepared(frames, o, x);
            Decode(PacketBytes(fstype, flags, all, nonce, x), x, fuel)
            == if Compressed(frames, o, x)
                  && !(16 < |Fill(Ended(DropSpecial(frames)), nonce, x)| <= MAX_UNCOMPRESSED) then None
               else Some((Decoded(fstype, flags, all), []))
  {
    hide Inverse, FrameOk, Fill, DecodeFrames, Prepared, Compressed, DropSpecial, Ended, SizesOk, Split, GetType;
    hide GetLen, Get, Put;
    hide Expandable, Bytes;
    var all := Prepared(frames, o, x);
    var body := Fill(all, nonce, x);
    ExpandableIff(frames, o, nonce, x);
    PreparedIs(frames, o, x);
    assert all[0] == Sig(o.minor);
    DecodeFill(all, nonce, x, fuel);
    HeaderBack(fstype, flags, body);
    FillIsRun(all, nonce, x);
    FillHead(all, nonce, x);
    assert |all| >= 2 by { EndedNonempty(DropSpecial(frames)); }
    BodyLength(all, nonce, x);
    var p := PacketBytes(fstype, flags, all, nonce, x);
    assert p[FRAMESET_HEADER + |body|..] == [];
  }

  // ---------- When a frameset is compressed ----------

  /** Plain frames take the space that was reckoned for them. */
  lemma {:induction false} PlainSpace(frames: seq<Frame>, nonce: seq<byte>, x: Suite)
    requires Payload(frames, x)
    ensures |Fill(frames, nonce, x)| == TotalSpace(frames, x)
  {
    hide FrameOk;
    if frames == [] {
    } else {
      assert frames[0] in frames;
      PlainSpace(frames[1..], nonce, x);
    }
  }

  predicate HasComp(frames: seq<Frame>) {
    exists i :: 0 <= i < |frames| && frames[i].Comp?
  }

  /** A packet is compressed exactly if a method was offered and the payload's bytes, with the header of the
      frameset, are more than the threshold. */
  lemma CompressedIff(frames: seq<Frame>, o: Options, nonce: seq<byte>, x: Suite)
    requires OptionsOk(o, x) && Payload(DropSpecial(frames), x)
    ensures HasComp(Prepared(frames, o, x)) <==>
            o.comp.Some? && FRAMESET_HEADER + |Fill(DropSpecial(frames), nonce, x)| > o.comp.value.1
    ensures HasComp(Prepared(frames, o, x)) <==> Compressed(frames, o, x)
  {
    hide FrameOk, Fill, DropSpecial, Prepared, TotalSpace;
    var payload := DropSpecial(frames);
    PlainSpace(payload, nonce, x);
    PreparedIs(frames, o, x);
    var front, ended := Front(frames, o, x), Ended(payload);
    var all := front + ended;
    assert forall i :: |front| <= i < |all| ==> all[i] == ended[i - |front|] && all[i].Plain?;
    if Compressed(frames, o, x) { assert all[|front| - 1] == front[|front| - 1] == Comp(o.comp.value.0); }
  }

  /** With a threshold of at least 23, every built packet whose compressed part is within the decoder's maximum
      decodes to its frames: small payloads are not compressed, and so never meet the decoder's minimum. */
  lemma DecodeAboveThreshold(fstype: nat, flags: nat, frames: seq<Frame>, o: Options, nonce: seq<byte>, x: Suite,
          fuel: nat)
    requires Inverse(x) && OptionsOk(o, x) && |nonce| == NONCE && fstype < 0x1_0000 && flags < 0x1_0000
    requires Payload(DropSpecial(frames), x) && FrameOk(Plain(END, []), x)
    requires forall f :: f in Prepared(frames, o, x) ==> FrameOk(f, x)
    requires SizesOk(Prepared(frames, o, x), nonce, x) && |Fill(Prepared(frames, o, x), nonce, x)| < 0x100_0000
    requires fuel >= |Prepared(frames, o, x)|
    requires o.comp.Some? ==> o.comp.value.1 >= FRAMESET_HEADER + 16
    requires Payload(Ended(DropSpecial(frames)), x) && |Fill(Ended(DropSpecial(frames)), nonce, x)| <= MAX_UNCOMPRESSED
    ensures var all := Prepared(frames, o, x);
            Decode(PacketBytes(fstype, flags, all, nonce, x), x, fuel) == Some((Decoded(fstype, flags, all), []))
  {
    hide Inverse, FrameOk, Fill, Decode, Prepared, Compressed, DropSpecial, Ended, SizesOk, PacketBytes, HasComp;
    DecodeBuilt(fstype, flags, frames, o, nonce, x, fuel);
    CompressedIff(frames, o, nonce, x);
    EndedIsLonger(DropSpecial(frames), nonce, x);
  }

  lemma EndedIsLonger(payload: seq<Frame>, nonce: seq<byte>, x: Suite)
    requires Payload(payload, x) && Payload(Ended(payload), x)
    ensures |Fill(Ended(payload), nonce, x)| >= |Fill(payload, nonce, x)|
  {
    hide FrameOk, Fill;
    PlainSpace(payload, nonce, x);
    PlainSpace(Ended(payload), nonce, x);
    if !EndsInEnd(payload) { SpaceSnoc(payload, Plain(END, []), x); }
  }

  // ---------- What is accepted ----------

  /** An entry holds the checksum of what follows it, and the check accepts exactly that. */
  lemma SignatureOkIff(minor: nat, sum: seq<byte>, rest: seq<byte>, x: Suite)
    requires Inverse(x) && minor < 256 && x.cksumSize(minor) >= 1 && |sum| < 0xff_0000
    requires |rest| >= HEADER && HEADER + GetLen(rest) <= |rest|
    ensures SignatureOk(Bytes(Entry(SIG, [GLIB, minor] + sum)) + rest, x) <==> sum == x.cksum(minor, rest)
  {
    hide Bytes, GetLen, GetType;
    var e := Entry(SIG, [GLIB, minor] + sum);
    var body := Bytes(e) + rest;
    ReadEntry(e, rest);
    var next := HEADER + |e.value|;
    assert body[0..] == body && body[next..] == rest;
    assert Next(body, 0) == Some(next);
    assert body[HEADER..next] == e.value;
    assert body[HEADER] == e.value[0] && body[HEADER + 1] == e.value[1] && body[HEADER + 2..next] == e.value[2..];
    assert e.value[2..] == sum;
  }

  lemma EndedNonempty(payload: seq<Frame>)
    ensures Ended(payload) != []
  {
  }

  lemma BodyLength(all: seq<Frame>, nonce: seq<byte>, x: Suite)
    requires |all| >= 2 && all[0].Sig? && (forall f :: f in all ==> FrameOk(f, x)) && Inverse(x)
    ensures |Fill(all, nonce, x)| >= FRAMESET_HEADER
  {
    hide Put;
  }
}
