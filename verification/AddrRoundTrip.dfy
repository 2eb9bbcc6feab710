/** Parsing a printed address gives the address back. */
module AddrRoundTrip {
  import opened FrameSets
  import opened Numerals
  import opened NetAddr
  import opened AddrText

  // ---------- Printed numbers ----------

  /** Chunks that a parser loop accepts. */
  predicate Groupy(ds: seq<string>, v4: bool) {
    forall i :: 0 <= i < |ds| ==> Numeral(ds[i], ChunkBase(v4)) && Value(ds[i], ChunkBase(v4)) <= MaxChunk(v4)
  }

  function Values(ds: seq<string>, base: Base): seq<nat> {
    seq(|ds|, i requires 0 <= i < |ds| => Value(ds[i], base))
  }

  lemma DecimalsAre(body: seq<bv8>)
    ensures Groupy(Decimals(body), true)
    ensures Values(Decimals(body), 10) == seq(|body|, i requires 0 <= i < |body| => Nat(body[i]))
  {
    forall i | 0 <= i < |body|
      ensures Numeral(Decimals(body)[i], 10) && Value(Decimals(body)[i], 10) == Nat(body[i])
    {
      DigitsValue(Nat(body[i]), 10);
    }
  }

  lemma HexesAre(w: seq<nat>)
    requires forall i :: 0 <= i < |w| ==> w[i] < 65536
    ensures Groupy(Hexes(w), false) && Values(Hexes(w), 16) == w
  {
    forall i | 0 <= i < |w| ensures Numeral(Hexes(w)[i], 16) && Value(Hexes(w)[i], 16) == w[i] {
      DigitsValue(w[i], 16);
    }
  }

  lemma FullGroupsAre(w: seq<nat>)
    requires |w| > 0 && forall i :: 0 <= i < |w| ==> w[i] < 65536
    ensures Groupy(FullGroups(w), false) && Values(FullGroups(w), 16) == w
  {
    hide Digits;
    HexesAre(w[..|w| - 1]);
    DigitsValue(w[|w| - 1], 16);
    Hex2Value(0);
    assert Hex2(0) == "00";
    var v := Values(FullGroups(w), 16);
    forall i | 0 <= i < |w| ensures v[i] == w[i] {
      if i < |w| - 1 {
        assert FullGroups(w)[i] == Hexes(w[..|w| - 1])[i] && Values(Hexes(w[..|w| - 1]), 16)[i] == w[i];
      }
    }
  }

  /** The characters that separate or enclose numbers. */
  predicate Mark(c: char) {
    c == ':' || c == '.' || c == '-' || c == '[' || c == ']' || c == '\0'
  }

  lemma NumeralChars(d: string, base: Base)
    requires Numeral(d, base)
    ensures forall i :: 0 <= i < |d| ==> !Mark(d[i])
  {
  }

  lemma {:induction false} JoinLacks(ds: seq<string>, sep: char, v4: bool, c: char)
    requires Groupy(ds, v4) && Mark(c) && c != sep
    ensures c !in Join(ds, sep)
  {
    hide Value, Mark;
    if ds == [] {
    } else {
      NumeralChars(ds[0], ChunkBase(v4));
      if |ds| > 1 { JoinLacks(ds[1..], sep, v4, c); }
    }
  }

  lemma JoinHead(ds: seq<string>, sep: char, v4: bool)
    requires Groupy(ds, v4) && ds != []
    ensures Join(ds, sep) != "" && Join(ds, sep)[0] == ds[0][0] && !Mark(Join(ds, sep)[0])
  {
    hide Value, Mark;
    NumeralChars(ds[0], ChunkBase(v4));
  }

  // ---------- The chunk loop on printed chunks ----------

  /** What may follow the address characters. */
  predicate Ends(tail: string) {
    tail == "" || tail[0] == ']'
  }

  lemma MarkStops(c: char, base: Base)
    requires Mark(c)
    ensures !IsDigit(c, base) && c != 'x' && c != 'X'
  {
  }

  /** One turn of the loop on a printed chunk. */
  lemma ReadChunk(d: string, rest: string, n: int, k: nat, gap: int, v4: bool, chunks: seq<nat>,
          stop: Option<(string, int)>)
    requires Groupy([d], v4) && (rest == "" || Mark(rest[0])) && k < MaxChunks(v4) && n > 0
    ensures Chunks(d + rest, n, k, gap, v4, chunks, stop)
            == Delimited(rest, n - |d|, k, gap, v4, chunks + [Value(d, ChunkBase(v4))])
  {
    hide Strtol, Value, Delimited;
    if rest != "" { MarkStops(rest[0], ChunkBase(v4)); }
    assert [d][0] == d;
    StrtolNumeral(d, rest, ChunkBase(v4));
    assert (d + rest)[|d|..] == rest;
  }

  lemma LastChunk(tail: string, k: nat, gap: int, v4: bool, chunks: seq<nat>)
    requires Ends(tail) && k < MaxChunks(v4)
    ensures Delimited(tail, 0, k, gap, v4, chunks) == Some(Scan(chunks, k, gap, Some((tail, 0))))
  {
  }

  lemma NextChunk(more: string, left: int, k: nat, gap: int, v4: bool, chunks: seq<nat>)
    requires more != "" && more[0] != ':' && left > 0 && k < MaxChunks(v4)
    ensures var at := [Delimiter(v4)] + more;
            Delimited(at, left, k, gap, v4, chunks) == Chunks(more, left - 1, k + 1, gap, v4, chunks, Some((at, left)))
  {
    hide Chunks;
    assert ([Delimiter(v4)] + more)[1..] == more;
  }

  lemma GapChunk(after: string, left: int, k: nat, chunks: seq<nat>)
    requires left > 0 && k < 8
    ensures Delimited("::" + after, left, k, -1, false, chunks)
            == Chunks(after, left - 2, k + 1, k + 1, false, chunks, Some(("::" + after, left)))
  {
    hide Chunks;
    assert ("::" + after)[2..] == after;
  }

  lemma GroupyTail(ds: seq<string>, v4: bool)
    requires ds != [] && Groupy(ds, v4)
    ensures Groupy([ds[0]], v4) && Groupy(ds[1..], v4) && ds[0] != ""
    ensures Values(ds, ChunkBase(v4)) == [Value(ds[0], ChunkBase(v4))] + Values(ds[1..], ChunkBase(v4))
  {
    hide Value;
  }

  lemma {:induction false} ParseJoin(ds: seq<string>, tail: string, k: nat, gap: int, v4: bool, chunks: seq<nat>,
                                     stop: Option<(string, int)>)
    requires ds != [] && Groupy(ds, v4) && Ends(tail) && k + |ds| <= MaxChunks(v4)
    ensures var text := Join(ds, Delimiter(v4));
            Chunks(text + tail, |text|, k, gap, v4, chunks, stop)
            == Some(Scan(chunks + Values(ds, ChunkBase(v4)), k + |ds| - 1, gap, Some((tail, 0))))
    decreases |ds|
  {
    hide Value, Numeral, Groupy, Delimited, Values, Chunks;
    var base, sep, d := ChunkBase(v4), Delimiter(v4), ds[0];
    var text := Join(ds, sep);
    var more := chunks + [Value(d, base)];
    GroupyTail(ds, v4);
    if |ds| == 1 {
      assert text + tail == d + tail;
      ReadChunk(d, tail, |text|, k, gap, v4, chunks, stop);
      LastChunk(tail, k, gap, v4, more);
      assert Values(ds[1..], base) == [] by { ValuesLength(ds[1..], base); }
      assert chunks + Values(ds, base) == more;
    } else {
      var after := Join(ds[1..], sep) + tail;
      JoinHead(ds[1..], sep, v4);
      assert text + tail == d + ([sep] + after);
      ReadChunk(d, [sep] + after, |text|, k, gap, v4, chunks, stop);
      var left := |text| - |d|;
      NextChunk(after, left, k, gap, v4, more);
      ParseJoin(ds[1..], tail, k + 1, gap, v4, more, Some(([sep] + after, left)));
      assert more + Values(ds[1..], base) == chunks + Values(ds, base);
    }
  }

  /** Up to and including a double colon. */
  lemma {:induction false} ParseToGap(ds: seq<string>, after: string, n: nat, k: nat, chunks: seq<nat>,
          stop: Option<(string, int)>)
    requires ds != [] && Groupy(ds, false) && k + |ds| <= 8
    ensures var text := Join(ds, ':');
            Chunks(text + "::" + after, |text| + 2 + n, k, -1, false, chunks, stop)
            == Chunks(after, n, k + |ds|, k + |ds|, false, chunks + Values(ds, 16), Some(("::" + after, n + 2)))
    decreases |ds|
  {
    hide Value, Numeral, Groupy, Delimited, Values, Chunks;
    var d := ds[0];
    var text := Join(ds, ':');
    var more := chunks + [Value(d, 16)];
    GroupyTail(ds, false);
    var left := |text| + 2 + n - |d|;
    if |ds| == 1 {
      assert text + "::" + after == d + ("::" + after);
      ReadChunk(d, "::" + after, |text| + 2 + n, k, -1, false, chunks, stop);
      GapChunk(after, left, k, more);
      assert Values(ds[1..], 16) == [] by { ValuesLength(ds[1..], 16); }
      assert chunks + Values(ds, 16) == more;
    } else {
      var rest := Join(ds[1..], ':') + "::" + after;
      JoinHead(ds[1..], ':', false);
      assert text + "::" + after == d + ([':'] + rest);
      ReadChunk(d, [':'] + rest, |text| + 2 + n, k, -1, false, chunks, stop);
      NextChunk(rest, left, k, -1, false, more);
      ParseToGap(ds[1..], after, n, k + 1, more, Some(([':'] + rest, left)));
      assert more + Values(ds[1..], 16) == chunks + Values(ds, 16);
    }
  }

  /** Once there has been a double colon, a second one ends it all. */
  lemma {:induction false} SecondGap(ds: seq<string>, after: string, n: nat, k: nat, gap: nat, chunks: seq<nat>,
          stop: Option<(string, int)>)
    requires ds != [] && Groupy(ds, false) && k + |ds| <= 8 && n >= |Join(ds, ':')|
    ensures Chunks(Join(ds, ':') + "::" + after, n, k, gap, false, chunks, stop) == None
    decreases |ds|
  {
    hide Value, Numeral, Groupy, Delimited, Values, Chunks;
    var d := ds[0];
    var more := chunks + [Value(d, 16)];
    GroupyTail(ds, false);
    if |ds| == 1 {
      assert Join(ds, ':') + "::" + after == d + ("::" + after);
      ReadChunk(d, "::" + after, n, k, gap, false, chunks, stop);
      GapAgain(after, n - |d|, k, gap, more);
    } else {
      var rest := Join(ds[1..], ':') + "::" + after;
      JoinHead(ds[1..], ':', false);
      assert Join(ds, ':') + "::" + after == d + ([':'] + rest);
      ReadChunk(d, [':'] + rest, n, k, gap, false, chunks, stop);
      NextChunk(rest, n - |d|, k, gap, false, more);
      SecondGap(ds[1..], after, n - |d| - 1, k + 1, gap, more, Some(([':'] + rest, n - |d|)));
    }
  }

  lemma GapAgain(after: string, left: int, k: nat, gap: nat, chunks: seq<nat>)
    requires k < 8
    ensures Delimited("::" + after, left, k, gap, false, chunks) == None
  {
  }

  lemma NoScan(t: string, n: int, gap: int, port: nat)
    requires port < 65536 && -1 <= gap <= 0 && Chunks(t, n, 0, gap, false, [], None) == None
    ensures FromChunks(t, n, gap, false, port) == None
  {
    hide Chunks, Assemble;
  }

  lemma GapInFront(t: string)
    requires '.' !in t
    ensures ParseV6("::" + t) == FromChunks(t, |t|, 0, false, 0)
  {
    hide FromChunks;
    assert ("::" + t)[2..] == t;
  }

  lemma NoBracket(t: string)
    requires t != "" && t[0] != '['
    ensures ParseV6(t) == ParseV6Chars(t, |t|, 0)
  {
    hide ParseV6Chars;
  }

  /** Zeros can be left out only once. */
  lemma TwoGapsRefused(ds: seq<string>, es: seq<string>, after: string)
    requires ds != [] && es != [] && Groupy(ds, false) && Groupy(es, false) && |ds| + |es| <= 8
    ensures ParseV6(Join(ds, ':') + "::" + (Join(es, ':') + "::" + after)) == None
    ensures '.' !in after ==> ParseV6("::" + (Join(es, ':') + "::" + after)) == None
  {
    hide Chunks, Value, Join, Values, Groupy, Numeral, FromChunks, ParseV6, ParseV6Chars;
    var rest := Join(es, ':') + "::" + after;
    var s := Join(ds, ':') + "::" + rest;
    JoinHead(ds, ':', false);
    MarksAre();
    NoBracket(s);
    NoGapInFront(s, |s|, 0);
    ParseToGap(ds, rest, |rest|, 0, [], None);
    SecondGap(es, after, |rest|, |ds|, |ds|, [] + Values(ds, 16), Some(("::" + rest, |rest| + 2)));
    NoScan(s, |s|, -1, 0);
    SecondGap(es, after, |rest|, 0, 0, [], None);
    NoScan(rest, |rest|, 0, 0);
    if '.' !in after {
      JoinLacks(es, ':', false, '.');
      GapInFront(rest);
    }
  }

  // ---------- IPv6 ----------

  lemma WordBytes(b0: bv8, b1: bv8)
    ensures Word16(b0, b1) / 256 == Nat(b0) && Word16(b0, b1) % 256 == Nat(b1)
  {
  }

  lemma NatByte(b: bv8)
    ensures Byte(Nat(b)) == b
  {
  }

  /** Words and bytes are two views of the same address. */
  lemma BodyOfWords(body: seq<bv8>)
    requires |body| == 16
    ensures BodyOf(Words(body)) == body
  {
    hide Word16, Nat, Byte;
    forall i | 0 <= i < 16 ensures BodyOf(Words(body))[i] == body[i] {
      var j := i / 2;
      WordBytes(body[2 * j], body[2 * j + 1]);
      NatByte(body[i]);
    }
  }

  /** An IPv6 address that is printed in groups is parsed back, whatever run of zeros its text leaves out. */
  lemma ParseGroups(w: seq<nat>, tail: string, port: nat)
    requires |w| == 8 && (forall i :: 0 <= i < 8 ==> w[i] < 65536) && port < 65536
    requires Ends(tail) && '.' !in tail
    ensures ParseV6Chars(Groups(w) + tail, |Groups(w)|, port) == Some(NetAddr(IPV6, port, BodyOf(w)))
  {
    hide Groups, Chunks, BodyOf, Hexes;
    var p := FirstGap(w, 0);
    if p == 8 {
      ParseFull(w, tail, port);
    } else if p > 0 {
      ParseInnerGap(w, p, GapEnd(w, p), tail, port);
    } else {
      ParseLeadingGap(w, GapEnd(w, 0), tail, port);
    }
  }

  lemma ParseFull(w: seq<nat>, tail: string, port: nat)
    requires |w| == 8 && (forall i :: 0 <= i < 8 ==> w[i] < 65536) && port < 65536
    requires Ends(tail) && FirstGap(w, 0) == 8
    ensures ParseV6Chars(Groups(w) + tail, |Groups(w)|, port) == Some(NetAddr(IPV6, port, BodyOf(w)))
  {
    hide BodyOf, FullGroups, Value, Join, FirstGap, Values, Groupy, ParseV6Chars, FromChunks;
    var ds := FullGroups(w);
    FullGroupsAre(w);
    ValuesLength(ds, 16);
    JoinHead(ds, ':', false);
    NoGapInFront(Join(ds, ':') + tail, |Join(ds, ':')|, port);
    FullChunks(ds, w, tail, port);
  }

  lemma NoGapInFront(t: string, n: int, port: nat)
    requires t != "" && !Mark(t[0]) && port < 65536
    ensures ParseV6Chars(t, n, port) == FromChunks(t, n, -1, false, port)
  {
    hide FromChunks;
  }

  lemma FullChunks(ds: seq<string>, w: seq<nat>, tail: string, port: nat)
    requires |w| == 8 && (forall i :: 0 <= i < 8 ==> w[i] < 65536) && port < 65536
    requires Ends(tail) && Groupy(ds, false) && Values(ds, 16) == w
    ensures var text := Join(ds, ':');
            FromChunks(text + tail, |text|, -1, false, port) == Some(NetAddr(IPV6, port, BodyOf(w)))
  {
    hide Chunks, BodyOf, Value, Join, Values, Assemble, ScanOk, Groupy;
    ValuesLength(ds, 16);
    ParseJoin(ds, tail, 0, -1, false, [], None);
    assert [] + w == w;
    AssembleFull(w, tail, port);
  }

  lemma ValuesLength(ds: seq<string>, base: Base)
    ensures |Values(ds, base)| == |ds|
  {
  }

  /** What the chunk loop found makes up this address. */
  predicate Yields(r: Option<Scan>, w: seq<nat>, port: nat)
    requires |w| == 8 && forall i :: 0 <= i < 8 ==> w[i] < 65536
  {
    r.Some? && ScanOk(r.value, false) && Assemble(r.value, false, port) == Some(NetAddr(IPV6, port, BodyOf(w)))
  }

  lemma AssembleFull(w: seq<nat>, tail: string, port: nat)
    requires |w| == 8 && forall i :: 0 <= i < 8 ==> w[i] < 65536
    ensures Yields(Some(Scan(w, 7, -1, Some((tail, 0)))), w, port)
  {
    hide BodyOf;
    assert w + Zeros(0) == w && w[..8] == w;
  }

  function GapIndex(p: nat, e: nat): nat
    requires p + 2 <= e <= 8
  {
    if e == 8 then p else p + (8 - e) - 1
  }

  /** The words around a run of zeros, with the zeros put back. */
  lemma FillGap(w: seq<nat>, p: nat, e: nat)
    requires |w| == 8 && p + 2 <= e <= 8 && forall i :: p <= i < e ==> w[i] == 0
    ensures var chunks := w[..p] + w[e..];
            Fill(chunks + Zeros(8 - |chunks|), GapIndex(p, e), p) == w
  {
    hide Zeros;
    var all := w[..p] + w[e..] + Zeros(e - p);
    var r := Fill(all, GapIndex(p, e), p);
    assert |r| == 8;
    forall i | 0 <= i < 8 ensures r[i] == w[i] {}
  }

  predicate StopOk(stop: Option<(string, int)>) {
    stop.Some? && stop.value.1 != 0 ==>
      stop.value.1 == 2 && At(stop.value.0, 0) == ':' && At(stop.value.0, 1) == ':'
  }

  lemma AssembleGap(w: seq<nat>, p: nat, e: nat, stop: Option<(string, int)>, port: nat)
    requires |w| == 8 && (forall i :: 0 <= i < 8 ==> w[i] < 65536)
    requires p + 2 <= e <= 8 && (forall i :: p <= i < e ==> w[i] == 0) && StopOk(stop)
    ensures Yields(Some(Scan(w[..p] + w[e..], GapIndex(p, e), p, stop)), w, port)
  {
    hide BodyOf, Fill, Zeros;
    FillGap(w, p, e);
  }

  lemma StopAtColons(after: string)
    ensures StopOk(Some(("::" + after, 2))) && StopOk(Some((after, 0)))
  {
  }

  lemma ParseInnerGap(w: seq<nat>, p: nat, e: nat, tail: string, port: nat)
    requires |w| == 8 && (forall i :: 0 <= i < 8 ==> w[i] < 65536) && port < 65536
    requires Ends(tail) && p == FirstGap(w, 0) && 0 < p < 8 && e == GapEnd(w, p)
    ensures ParseV6Chars(Groups(w) + tail, |Groups(w)|, port) == Some(NetAddr(IPV6, port, BodyOf(w)))
  {
    hide Chunks, BodyOf, Hexes, Value, Join, FirstGap, Values, Assemble, ScanOk;
    assert p + 2 <= e by { GapLength(w, p); }
    var left := Join(Hexes(w[..p]), ':');
    var after := Join(Hexes(w[e..]), ':');
    HexesAre(w[..p]);
    ValuesLength(Hexes(w[..p]), 16);
    JoinHead(Hexes(w[..p]), ':', false);
    var t := Groups(w) + tail;
    assert t == left + "::" + (after + tail);
    assert t[0..] == t;
    assert At(t, 0) != ':';
    ChunksAroundGap(w, p, e, tail, port);
  }

  /** The chunk loop on groups with a double colon among them. */
  lemma ChunksAroundGap(w: seq<nat>, p: nat, e: nat, tail: string, port: nat)
    requires |w| == 8 && (forall i :: 0 <= i < 8 ==> w[i] < 65536) && Ends(tail)
    requires 0 < p && p + 2 <= e <= 8 && forall i :: p <= i < e ==> w[i] == 0
    ensures var left, after := Join(Hexes(w[..p]), ':'), Join(Hexes(w[e..]), ':');
            Yields(Chunks(left + "::" + (after + tail), |left| + 2 + |after|, 0, -1, false, [], None), w, port)
  {
    hide Chunks, Hexes, Value, Join, Values, StopOk, Yields;
    var left, right := Hexes(w[..p]), Hexes(w[e..]);
    HexesAre(w[..p]);
    HexesAre(w[e..]);
    ValuesLength(left, 16);
    ValuesLength(right, 16);
    var after := Join(right, ':');
    ParseToGap(left, after + tail, |after|, 0, [], None);
    assert [] + w[..p] == w[..p];
    var stop := Some(("::" + (after + tail), |after| + 2));
    StopAtColons(after + tail);
    if e == 8 {
      assert w[..p] + w[e..] == w[..p];
      assert after == "" by { JoinEmpty(right); }
      NoChunksLeft(after + tail, p, p, w[..p], stop);
      AssembleGap(w, p, e, stop, port);
    } else {
      ParseJoin(right, tail, p, p, false, w[..p], stop);
      StopAtColons(tail);
      AssembleGap(w, p, e, Some((tail, 0)), port);
    }
  }

  lemma GapLength(w: seq<nat>, p: nat)
    requires p + 1 < |w| && w[p] == 0 && w[p + 1] == 0
    ensures p + 2 <= GapEnd(w, p)
  {
  }

  lemma JoinEmpty(ds: seq<string>)
    requires ds == []
    ensures Join(ds, ':') == ""
  {
  }

  lemma NoChunksLeft(t: string, k: nat, gap: int, chunks: seq<nat>, stop: Option<(string, int)>)
    ensures Chunks(t, 0, k, gap, false, chunks, stop) == Some(Scan(chunks, k, gap, stop))
  {
  }

  lemma ParseLeadingGap(w: seq<nat>, e: nat, tail: string, port: nat)
    requires |w| == 8 && (forall i :: 0 <= i < 8 ==> w[i] < 65536) && port < 65536
    requires Ends(tail) && '.' !in tail && 0 == FirstGap(w, 0) && e == GapEnd(w, 0)
    ensures ParseV6Chars(Groups(w) + tail, |Groups(w)|, port) == Some(NetAddr(IPV6, port, BodyOf(w)))
  {
    hide Chunks, BodyOf, Hexes, Value, Join, FirstGap, Values, Assemble, ScanOk, StopOk;
    assert 2 <= e by { GapLength(w, 0); }
    var after := Join(Hexes(w[e..]), ':');
    assert Groups(w) == "::" + after by { EmptyLeft(w); }
    var t := Groups(w) + tail;
    assert t == "::" + (after + tail);
    assert '.' !in after by { HexesAre(w[e..]); JoinLacks(Hexes(w[e..]), ':', false, '.'); }
    assert |t| >= 7 ==> '.' !in t[7..];
    assert t[2..] == after + tail;
    ChunksAfterGap(w, e, tail, port);
  }

  lemma EmptyLeft(w: seq<nat>)
    requires |w| == 8
    ensures Join(Hexes(w[..0]), ':') == ""
  {
  }

  /** The chunk loop on what follows a leading double colon. */
  lemma ChunksAfterGap(w: seq<nat>, e: nat, tail: string, port: nat)
    requires |w| == 8 && (forall i :: 0 <= i < 8 ==> w[i] < 65536) && Ends(tail)
    requires 2 <= e <= 8 && forall i :: 0 <= i < e ==> w[i] == 0
    ensures var after := Join(Hexes(w[e..]), ':');
            Yields(Chunks(after + tail, |after|, 0, 0, false, [], None), w, port)
  {
    hide Chunks, Hexes, Value, Join, Values, StopOk, Yields;
    var right := Hexes(w[e..]);
    HexesAre(w[e..]);
    ValuesLength(right, 16);
    var after := Join(right, ':');
    assert w[..0] + w[e..] == w[e..] && [] + w[e..] == w[e..];
    if e == 8 {
      assert after == "" by { JoinEmpty(right); }
      NoChunksLeft(after + tail, 0, 0, [], None);
      assert StopOk(None) by { NoStop(); }
      AssembleGap(w, 0, e, None, port);
    } else {
      ParseJoin(right, tail, 0, 0, false, [], None);
      StopAtColons(tail);
      AssembleGap(w, 0, e, Some((tail, 0)), port);
    }
  }

  lemma NoStop()
    ensures StopOk(None)
  {
  }

  // ---------- Brackets and ports ----------

  function Tail(port: nat): string {
    if port != 0 then "]" + PortText(port) else ""
  }

  lemma TailOk(port: nat)
    ensures Ends(Tail(port)) && '.' !in Tail(port)
  {
    hide Digits;
    DigitsValue(port, 10);
    NumeralChars(Digits(port, 10), 10);
  }

  lemma {:induction false} IndexOfEnd(t: string, c: char, rest: string)
    requires c !in t
    ensures IndexOf(t + [c] + rest, c) == |t|
  {
    if t == "" {
      assert (t + [c] + rest)[0] == c;
    } else {
      assert (t + [c] + rest)[1..] == t[1..] + [c] + rest;
      IndexOfEnd(t[1..], c, rest);
    }
  }

  /** A port in decimal after the closing bracket. */
  lemma ParseBracket(address: string, port: nat)
    requires address != "" && address[0] != '[' && ']' !in address && port < 65536
    ensures ParseV6(Bracket(address, port)) == ParseV6Chars(address + Tail(port), |address|, port)
  {
    hide ParseV6Chars, Digits, IndexOf;
    if port == 0 {
      assert address + Tail(port) == address;
    } else {
      ParsePort(address, port);
    }
  }

  lemma Enclosed(x: string, y: string)
    ensures var s := "[" + x + "]" + y;
            |s| == |x| + 2 + |y| && s[0] == '[' && s[|x| + 2..] == y && s[1..] == x + [']'] + y
  {
  }

  lemma BracketParts(address: string, d: string)
    ensures var s := "[" + address + "]:" + d;
            var rb := 1 + |address|;
            && |s| == rb + 2 + |d|
            && s[0] == '[' && s[rb + 1] == ':'
            && s[1..] == address + [']'] + (":" + d)
            && s[rb + 2..] == d
  {
    Assoc("[" + address, "]:", d);
    Assoc("[", address, "]:" + d);
    Assoc(address, "]", ":" + d);
    Assoc("]", ":", d);
    assert "]" + ":" == "]:";
    DropFirst("[", address + ("]:" + d));
    DropFirst("[" + address + "]:", d);
  }

  lemma Assoc(a: string, b: string, c: string)
    ensures (a + b) + c == a + (b + c)
    ensures |a + b + c| == |a| + |b| + |c|
  {
  }

  lemma DropFirst(a: string, b: string)
    ensures (a + b)[|a|..] == b
  {
  }

  /** The port behind a bracket may be any decimal numeral, but its value must be a port other than 0. */
  lemma BracketPort(address: string, d: string)
    requires ']' !in address && Numeral(d, 10)
    ensures ParseV6("[" + address + "]:" + d) ==
            if 0 < Value(d, 10) < 65536
            then ParseV6Chars(address + [']'] + (":" + d), |address|, Value(d, 10)) else None
  {
    hide ParseV6Chars, IndexOf, Strtol, Value, Numeral;
    BracketParts(address, d);
    IndexOfEnd(address, ']', ":" + d);
    StrtolNumeral(d, "", 10);
    assert d + "" == d;
  }

  lemma ParsePort(address: string, port: nat)
    requires ']' !in address && 0 < port < 65536
    ensures ParseV6(Bracket(address, port)) == ParseV6Chars(address + Tail(port), |address|, port)
  {
    hide ParseV6, ParseV6Chars, Digits, Value, Numeral;
    var d := Digits(port, 10);
    DigitsValue(port, 10);
    BracketPort(address, d);
    Assoc("[" + address, "]", ":" + d);
    Assoc("[" + address + "]", ":", d);
    Assoc(address, "]", ":" + d);
    assert "[" + address + "]" + ":" == "[" + address + "]:" by { Assoc("[" + address, "]", ":"); }
  }

  lemma {:induction false} GroupsChars(w: seq<nat>)
    requires |w| == 8 && forall i :: 0 <= i < 8 ==> w[i] < 65536
    ensures Groups(w) != "" && ']' !in Groups(w) && Groups(w)[0] != '['
    ensures Groups(w)[0] == ':' || IsDigit(Groups(w)[0], 16)
  {
    hide Hexes, FullGroups, Value, Join, Mark, FirstGap;
    assert Mark(']') by { MarksAre(); }
    var p := FirstGap(w, 0);
    if p == 8 {
      FullGroupsAre(w);
      ValuesLength(FullGroups(w), 16);
      JoinLacks(FullGroups(w), ':', false, ']');
      DigitHead(FullGroups(w), ':', false);
    } else {
      HexesAre(w[..p]);
      HexesAre(w[GapEnd(w, p)..]);
      ValuesLength(Hexes(w[..p]), 16);
      JoinLacks(Hexes(w[..p]), ':', false, ']');
      JoinLacks(Hexes(w[GapEnd(w, p)..]), ':', false, ']');
      if p > 0 { DigitHead(Hexes(w[..p]), ':', false); } else { JoinEmpty(Hexes(w[..p])); }
    }
  }

  lemma MarksAre()
    ensures Mark(']') && Mark('[') && Mark(':') && Mark('.') && Mark('-') && Mark('\0')
  {
  }

  lemma DigitHead(ds: seq<string>, sep: char, v4: bool)
    requires Groupy(ds, v4) && ds != []
    ensures Join(ds, sep) != "" && IsDigit(Join(ds, sep)[0], ChunkBase(v4)) && Join(ds, sep)[0] != '['
  {
    hide Value;
    assert Numeral(ds[0], ChunkBase(v4));
  }

  /** Every IPv6 address that is not an IPv4 one in disguise. */
  lemma ParsePlainV6(a: NetAddr)
    requires Valid(a) && a.family == IPV6 && !Mapped(a)
    ensures ParseV6(Text(a, false)) == Some(a)
  {
    hide Words, Groups, ParseV6, ParseV6Chars, Bracket, BodyOf;
    var w := Words(a.body);
    GroupsChars(w);
    TailOk(a.port);
    ParseBracket(Groups(w), a.port);
    ParseGroups(w, Tail(a.port), a.port);
    BodyOfWords(a.body);
  }

  /** IPv4 inside IPv6 space: ::ffff: and a dotted quad. */
  lemma ParseMapped(a: NetAddr)
    requires Valid(a) && Mapped(a)
    ensures ParseV6(Text(a, false)) == Some(a)
  {
    hide Decimals, ParseV6, ParseV6Chars, Bracket, Join;
    var ds := Decimals(a.body[12..]);
    var v4 := Join(ds, '.');
    DecimalsAre(a.body[12..]);
    assert |ds| == 4 by { ValuesLength(ds, 10); }
    assert Mark(']') by { MarksAre(); }
    JoinLacks(ds, '.', true, ']');
    TailOk(a.port);
    ParseBracket("::ffff:" + v4, a.port);
    MappedChars(ds, Tail(a.port), a.port);
    MappedBytes(a, ds);
  }

  lemma MappedChars(ds: seq<string>, tail: string, port: nat)
    requires Groupy(ds, true) && |ds| == 4 && Ends(tail) && port < 65536
    ensures var v4 := Join(ds, '.');
            var r := Scan(Values(ds, 10), 3, 0, Some((tail, 0)));
            ScanOk(r, true) && ParseV6Chars("::ffff:" + v4 + tail, 7 + |v4|, port) == Assemble(r, true, port)
  {
    hide Value, Chunks, Assemble, Values, Groupy;
    var v4 := Join(ds, '.');
    var t := "::ffff:" + v4 + tail;
    assert t[2..] == "ffff:" + v4 + tail;
    assert t[7..] == v4 + tail;
    assert v4 == ds[0] + ['.'] + Join(ds[1..], '.');
    assert '.' in v4 && '.' in t[7..];
    ParseJoin(ds, tail, 0, 0, true, [], None);
    assert [] + Values(ds, 10) == Values(ds, 10);
    ChunksOk(t[7..], |v4|, 0, 0, true, [], None);
  }

  lemma MappedBytes(a: NetAddr, ds: seq<string>)
    requires Valid(a) && Mapped(a) && ds == Decimals(a.body[12..])
    ensures var r := Scan(Values(ds, 10), 3, 0, Some((Tail(a.port), 0)));
            ScanOk(r, true) && Assemble(r, true, a.port) == Some(a)
  {
    hide Value, Nat, Byte, Values;
    var v := Values(ds, 10);
    DecimalsAre(a.body[12..]);
    assert Zeros(4) == Zeros(4);
    var all := v + Zeros(8 - |v|);
    forall i | 0 <= i < 4 ensures all[i] < 256 && Byte(all[i]) == a.body[12 + i] { NatByte(a.body[12 + i]); }
    assert a.body == IPV4_SPACE + [a.body[12], a.body[13], a.body[14], a.body[15]];
  }

  // ---------- IPv4 ----------

  lemma {:induction false} ScanDigits(d: string, rest: string, j: nat, dots: seq<nat>, colon: int)
    requires forall i :: 0 <= i < |d| ==> IsDigit(d[i], 10)
    ensures ScanV4(d + rest, j, dots, colon) == ScanV4(rest, j + |d|, dots, colon)
  {
    hide DigitVal;
    if d == "" {
      assert d + rest == rest;
    } else {
      assert (d + rest)[1..] == d[1..] + rest;
      ScanDigits(d[1..], rest, j + 1, dots, colon);
    }
  }

  /** Three digits at most. */
  lemma ByteDigits(b: bv8)
    ensures var d := Digits(Nat(b), 10);
            Numeral(d, 10) && Value(d, 10) == Nat(b) && |d| <= 3
  {
    hide Numeral, Value;
    DigitsValue(Nat(b), 10);
    var n := Nat(b);
    assert n / 10 < 26 && n / 10 / 10 < 3;
    assert |Digits(n / 10 / 10, 10)| == 1;
    assert |Digits(n / 10, 10)| <= 2;
  }

  function Quad(d0: string, d1: string, d2: string, d3: string, tail: string): string {
    d0 + ("." + (d1 + ("." + (d2 + ("." + (d3 + tail))))))
  }

  /** Nothing, or a colon with digits behind it, if any. */
  predicate PortPart(tail: string) {
    tail == "" || (tail[0] == ':' && forall i :: 1 <= i < |tail| ==> IsDigit(tail[i], 10))
  }

  /** What a dotted quad of any numerals stands for. */
  function QuadAddr(d0: string, d1: string, d2: string, d3: string, tail: string): Option<NetAddr> {
    var b0, b1, b2, b3 := Atoi(d0), Atoi(d1), Atoi(d2), Atoi(d3);
    if tail != "" && |d0| + |d1| + |d2| + |d3| + 3 > 21 then None
    else if !IsByte(b0) || !IsByte(b1) || !IsByte(b2) || !IsByte(b3) || tail == ":" then None
    else if tail != "" && Atoi(tail[1..]) > 65535 then None
    else
      var port := if tail == "" then 0 else Atoi(tail[1..]) % 65536;
      Some(NetAddr(IPV4, port, [Byte(b0), Byte(b1), Byte(b2), Byte(b3)]))
  }

  lemma ScanDot(rest: string, j: nat, dots: seq<nat>)
    requires |dots| < 3
    ensures ScanV4("." + rest, j, dots, -1) == ScanV4(rest, j + 1, dots + [j], -1)
  {
    assert ("." + rest)[1..] == rest;
  }

  lemma ScanPort(tail: string, j: nat, dots: seq<nat>)
    requires PortPart(tail)
    ensures ScanV4(tail, j, dots, -1)
            == if tail != "" && j > 21 then None else Some((dots, if tail == "" then -1 else j))
  {
    if tail != "" && j <= 21 {
      assert tail[1..] + "" == tail[1..];
      ScanDigits(tail[1..], "", j + 1, dots, j);
    }
  }

  lemma ScanQuad(d0: string, d1: string, d2: string, d3: string, tail: string)
    requires Numeral(d0, 10) && Numeral(d1, 10) && Numeral(d2, 10) && Numeral(d3, 10) && PortPart(tail)
    ensures var n := |d0| + |d1| + |d2| + |d3| + 3;
            ScanV4(Quad(d0, d1, d2, d3, tail), 0, [], -1)
            == if tail != "" && n > 21 then None
               else Some(([|d0|, |d0| + 1 + |d1|, |d0| + 2 + |d1| + |d2|], if tail == "" then -1 else n))
  {
    hide DigitVal, ScanV4, PortPart;
    var t3 := "." + (d3 + tail);
    var t2 := "." + (d2 + t3);
    var t1 := "." + (d1 + t2);
    var p0, p1, p2 := |d0|, |d0| + 1 + |d1|, |d0| + 2 + |d1| + |d2|;
    assert [] + [p0] == [p0] && [p0] + [p1] == [p0, p1] && [p0, p1] + [p2] == [p0, p1, p2];
    ScanDigits(d0, t1, 0, [], -1);
    ScanDot(d1 + t2, p0, []);
    ScanDigits(d1, t2, p0 + 1, [p0], -1);
    ScanDot(d2 + t3, p1, [p0]);
    ScanDigits(d2, t3, p1 + 1, [p0, p1], -1);
    ScanDot(d3 + tail, p2, [p0, p1]);
    ScanDigits(d3, tail, p2 + 1, [p0, p1, p2], -1);
    ScanPort(tail, p2 + 1 + |d3|, [p0, p1, p2]);
  }

  /** What stands behind a numeral does not change its value. */
  lemma AtoiPart(s: string, from: nat, d: string, rest: string)
    requires from <= |s| && s[from..] == d + rest
    requires Numeral(d, 10) && (rest == "" || Mark(rest[0]))
    ensures Atoi(s[from..]) == Atoi(d)
  {
    hide Value, Numeral, Strtol;
    if rest != "" { MarkStops(rest[0], 10); }
    StrtolNumeral(d, rest, 10);
    StrtolNumeral(d, "", 10);
    assert d + "" == d;
  }

  lemma QuadValues(d0: string, d1: string, d2: string, d3: string, tail: string)
    requires Numeral(d0, 10) && Numeral(d1, 10) && Numeral(d2, 10) && Numeral(d3, 10) && PortPart(tail)
    ensures var s := Quad(d0, d1, d2, d3, tail);
            && |s| == |d0| + |d1| + |d2| + |d3| + 3 + |tail|
            && Atoi(s) == Atoi(d0)
            && Atoi(s[|d0| + 1..]) == Atoi(d1)
            && Atoi(s[|d0| + 2 + |d1|..]) == Atoi(d2)
            && Atoi(s[|d0| + 3 + |d1| + |d2|..]) == Atoi(d3)
            && (tail != "" ==> s[|d0| + 4 + |d1| + |d2| + |d3|..] == tail[1..])
  {
    hide Atoi, Numeral, Mark, PortPart;
    MarksAre();
    assert tail == "" || Mark(tail[0]) by { PortHead(tail); }
    var t3 := "." + (d3 + tail);
    var t2 := "." + (d2 + t3);
    var t1 := "." + (d1 + t2);
    var s := Quad(d0, d1, d2, d3, tail);
    assert s[0..] == d0 + t1 == s;
    AtoiPart(s, 0, d0, t1);
    assert s[|d0| + 1..] == d1 + t2;
    AtoiPart(s, |d0| + 1, d1, t2);
    assert s[|d0| + 2 + |d1|..] == d2 + t3;
    AtoiPart(s, |d0| + 2 + |d1|, d2, t3);
    assert s[|d0| + 3 + |d1| + |d2|..] == d3 + tail;
    AtoiPart(s, |d0| + 3 + |d1| + |d2|, d3, tail);
    if tail != "" { assert (d3 + tail)[|d3| + 1..] == tail[1..]; }
  }

  lemma PortHead(tail: string)
    requires PortPart(tail)
    ensures tail == "" || Mark(tail[0])
  {
  }

  lemma PartsGive(s: string, p0: nat, p1: nat, p2: nat, d0: string, d1: string, d2: string, d3: string, tail: string)
    requires p0 < |s| && p1 < |s| && p2 < |s| && |s| == |d0| + |d1| + |d2| + |d3| + 3 + |tail|
    requires Atoi(s) == Atoi(d0) && Atoi(s[p0 + 1..]) == Atoi(d1)
    requires Atoi(s[p1 + 1..]) == Atoi(d2) && Atoi(s[p2 + 1..]) == Atoi(d3)
    requires tail != "" ==> s[|s| - |tail| + 1..] == tail[1..] && |s| - |tail| <= 21 && tail[0] == ':'
    ensures FromParts(s, p0, p1, p2, if tail == "" then -1 else |s| - |tail|) == QuadAddr(d0, d1, d2, d3, tail)
  {
    hide Atoi, Byte;
    if |tail| == 1 { assert tail == ":"; }
  }

  lemma FromScan(s: string, p0: nat, p1: nat, p2: nat, colon: int)
    requires ScanV4(s, 0, [], -1) == Some(([p0, p1, p2], colon))
    ensures p0 < |s| && p1 < |s| && p2 < |s| && colon < |s| && ParseV4(s) == FromParts(s, p0, p1, p2, colon)
  {
    hide FromParts, ScanV4;
    ScanV4Bounds(s, 0, [], -1);
    var dots := [p0, p1, p2];
    assert dots[0] == p0 && dots[1] == p1 && dots[2] == p2;
  }

  /** Every dotted quad of decimal numerals, with or without a port, is read by its values, or refused: when a value
      is out of range, when nothing follows the colon, and when the colon stands too far to the right. */
  lemma ParseNumerals(d0: string, d1: string, d2: string, d3: string, tail: string)
    requires Numeral(d0, 10) && Numeral(d1, 10) && Numeral(d2, 10) && Numeral(d3, 10) && PortPart(tail)
    ensures ParseV4(Quad(d0, d1, d2, d3, tail)) == QuadAddr(d0, d1, d2, d3, tail)
  {
    hide Atoi, Byte, ScanV4, FromParts, QuadAddr, Numeral, Quad;
    var s := Quad(d0, d1, d2, d3, tail);
    var n := |d0| + |d1| + |d2| + |d3| + 3;
    ScanQuad(d0, d1, d2, d3, tail);
    QuadValues(d0, d1, d2, d3, tail);
    if tail != "" && n > 21 {
      FarColon(d0, d1, d2, d3, tail);
    } else {
      FromScan(s, |d0|, |d0| + 1 + |d1|, |d0| + 2 + |d1| + |d2|, if tail == "" then -1 else n);
      PartsGive(s, |d0|, |d0| + 1 + |d1|, |d0| + 2 + |d1| + |d2|, d0, d1, d2, d3, tail);
    }
  }

  lemma FarColon(d0: string, d1: string, d2: string, d3: string, tail: string)
    requires tail != "" && |d0| + |d1| + |d2| + |d3| + 3 > 21
    ensures QuadAddr(d0, d1, d2, d3, tail) == None
  {
  }

  lemma JoinTail(ds: seq<string>, sep: char, tail: string)
    requires |ds| > 1
    ensures Join(ds, sep) + tail == ds[0] + ([sep] + (Join(ds[1..], sep) + tail))
  {
  }

  lemma JoinQuad(d0: string, d1: string, d2: string, d3: string, tail: string)
    ensures Join([d0, d1, d2, d3], '.') + tail == Quad(d0, d1, d2, d3, tail)
  {
    hide Join;
    JoinTail([d0, d1, d2, d3], '.', tail);
    JoinTail([d1, d2, d3], '.', tail);
    JoinTail([d2, d3], '.', tail);
    assert [d0, d1, d2, d3][1..] == [d1, d2, d3] && [d1, d2, d3][1..] == [d2, d3] && [d2, d3][1..] == [d3];
    JoinOne(d3);
  }

  lemma JoinOne(d: string)
    ensures Join([d], '.') == d
  {
  }

  /** The printed port, or nothing. */
  predicate PortTail(tail: string, port: nat) {
    if port == 0 then tail == "" else tail == PortText(port)
  }

  lemma PortTailIs(tail: string, port: nat)
    requires PortTail(tail, port) && port < 65536
    ensures PortPart(tail) && tail != ":"
    ensures if port == 0 then tail == "" else tail != "" && Atoi(tail[1..]) == port
  {
    hide Digits, Value, Strtol, DigitVal;
    if port != 0 {
      var d := Digits(port, 10);
      DigitsValue(port, 10);
      assert tail[1..] == d && d + "" == d;
      AtoiNumeral(d, "");
    }
  }

  lemma ByteIsRead(b: bv8)
    ensures var d := Digits(Nat(b), 10);
            Numeral(d, 10) && |d| <= 3 && IsByte(Atoi(d)) && Byte(Atoi(d)) == b
  {
    hide Value, Digits, Numeral, Atoi;
    var d := Digits(Nat(b), 10);
    ByteDigits(b);
    AtoiNumeral(d, "");
    assert d + "" == d;
    NatByte(b);
  }

  /** Every IPv4 address. */
  lemma ParseQuad(body: seq<bv8>, tail: string, port: nat)
    requires |body| == 4 && port < 65536 && PortTail(tail, port)
    ensures ParseV4(Join(Decimals(body), '.') + tail) == Some(NetAddr(IPV4, port, body))
  {
    hide Digits, ParseV4, Nat, Byte, Numeral, Join, Quad, PortTail, PortPart, Atoi;
    var ds := Decimals(body);
    ByteIsRead(body[0]);
    ByteIsRead(body[1]);
    ByteIsRead(body[2]);
    ByteIsRead(body[3]);
    assert ds == [ds[0], ds[1], ds[2], ds[3]];
    JoinQuad(ds[0], ds[1], ds[2], ds[3], tail);
    PortTailIs(tail, port);
    ParseNumerals(ds[0], ds[1], ds[2], ds[3], tail);
    assert body == [body[0], body[1], body[2], body[3]];
  }

  // ---------- MAC addresses ----------

  lemma Hex2Length(n: nat)
    requires n < 256
    ensures |Hex2(n)| == 2
  {
  }

  function Nats(body: seq<bv8>): seq<nat> {
    seq(|body|, i requires 0 <= i < |body| => Nat(body[i]))
  }

  lemma JoinPairs(body: seq<bv8>)
    requires body != []
    ensures var s := Join(HexPairs(body), '-');
            && s != ""
            && s == Hex2(Nat(body[0])) + if |body| == 1 then "" else "-" + Join(HexPairs(body[1..]), '-')
  {
    hide Hex2, Nat;
    Hex2Length(Nat(body[0]));
    assert HexPairs(body)[1..] == HexPairs(body[1..]);
    assert HexPairs(body)[0] == Hex2(Nat(body[0]));
  }

  // ---------- The dispatch ----------

  predicate TwoColons(s: string) {
    exists i, k :: 0 <= i < k < |s| && s[i] == ':' && s[k] == ':'
  }

  /** What looks like an IPv4 address has at most one colon, and no dash. */
  lemma {:induction false} ScanRejects(t: string, j: nat, dots: seq<nat>, colon: int)
    requires ScanV4(t, j, dots, colon).Some?
    ensures '-' !in t && !TwoColons(t) && (colon >= 0 ==> ':' !in t)
  {
    if t == "" {
    } else {
      assert t == [t[0]] + t[1..];
      if IsDigit(t[0], 10) {
        ScanRejects(t[1..], j + 1, dots, colon);
      } else if t[0] == '.' {
        ScanRejects(t[1..], j + 1, dots + [j], colon);
      } else {
        ScanRejects(t[1..], j + 1, dots, j);
      }
      TwoColonsTail(t);
    }
  }

  lemma TwoColonsTail(t: string)
    requires t != ""
    ensures TwoColons(t) <==> TwoColons(t[1..]) || (t[0] == ':' && ':' in t[1..])
  {
    var u := t[1..];
    assert forall i :: 0 < i < |t| ==> t[i] == u[i - 1];
    if TwoColons(u) {
      var i, k :| 0 <= i < k < |u| && u[i] == ':' && u[k] == ':';
      assert t[i + 1] == ':' && t[k + 1] == ':';
    }
    if t[0] == ':' && ':' in u {
      var k :| 0 <= k < |u| && u[k] == ':';
      assert t[k + 1] == ':';
    }
    if TwoColons(t) {
      var i, k :| 0 <= i < k < |t| && t[i] == ':' && t[k] == ':';
      assert u[k - 1] == ':' && (i == 0 || u[i - 1] == ':');
    }
  }

  lemma NotV4(s: string)
    requires TwoColons(s) || '-' in s
    ensures ParseV4(s) == None
  {
    hide ScanV4, TwoColons, FromParts;
    if ScanV4(s, 0, [], -1).Some? { ScanRejects(s, 0, [], -1); }
  }

  lemma GroupsColons(w: seq<nat>)
    requires |w| == 8
    ensures TwoColons(Groups(w))
  {
    hide Hexes, FullGroups, FirstGap;
    var p := FirstGap(w, 0);
    if p == 8 {
      var ds := FullGroups(w);
      assert |ds| == 8 by { FullLength(w); }
      var s := Join(ds, ':');
      var rest := Join(ds[1..], ':');
      assert rest == ds[1] + [':'] + Join(ds[1..][1..], ':');
      assert s == ds[0] + [':'] + rest;
      assert s[|ds[0]|] == ':' && s[|ds[0]| + 1 + |ds[1]|] == ':';
    } else {
      var left := Join(Hexes(w[..p]), ':');
      assert Groups(w)[|left|] == ':' && Groups(w)[|left| + 1] == ':';
    }
  }

  lemma FullLength(w: seq<nat>)
    requires |w| > 0
    ensures |FullGroups(w)| == |w|
  {
    hide Digits;
  }

  /** No printed IPv6 address is taken for an IPv4 one: not a plain one, not IPv4 inside IPv6, and not with a port. */
  lemma V6NotCaptured(a: NetAddr)
    requires Valid(a) && a.family == IPV6
    ensures ParseV4(Text(a, false)) == None
  {
    hide Groups, Words, Decimals, Join, ParseV4, TwoColons;
    var s := Text(a, false);
    if a.port != 0 {
      BracketNotV4(s);
    } else if Mapped(a) {
      ColonsAhead("::ffff:" + Join(Decimals(a.body[12..]), '.'));
      NotV4(s);
    } else {
      GroupsColons(Words(a.body));
      NotV4(s);
    }
  }

  lemma BracketNotV4(s: string)
    requires s != "" && s[0] == '['
    ensures ParseV4(s) == None
  {
  }

  lemma ColonsAhead(s: string)
    requires |s| >= 2 && s[0] == ':' && s[1] == ':'
    ensures TwoColons(s)
  {
  }

  /** No printed MAC address is taken for an IP one. */
  lemma MacNotCaptured(a: NetAddr)
    requires Valid(a) && !IsIP(a)
    ensures ParseV4(Text(a, false)) == None && ParseV6(Text(a, false)) == None
    ensures var c := At(Text(a, false), 0); IsDigit(c, 16) && c != '[' && c != ':'
  {
    hide Hex2, Join, HexPairs, Nat, ParseV4;
    var s := Text(a, false);
    JoinPairs(a.body);
    var rest := "-" + Join(HexPairs(a.body[1..]), '-');
    assert '-' in rest && '-' in s;
    NotV4(s);
    Hex2Value(Nat(a.body[0]));
    MacNotV6(Hex2(Nat(a.body[0])), rest);
  }

  lemma MacNotV6(d: string, rest: string)
    requires Numeral(d, 16) && Value(d, 16) < 256 && rest != "" && rest[0] == '-'
    ensures ParseV6(d + rest) == None
    ensures IsDigit(d[0], 16) && d[0] != '[' && d[0] != ':'
  {
    hide Value, Strtol;
    var s := d + rest;
    assert s[0] == d[0] && s[0..] == s;
    assert Groupy([d], false);
    MarksAre();
    ReadChunk(d, rest, |s|, 0, -1, false, [], None);
  }

  predicate ParsableMac(a: NetAddr) {
    a.family == MAC && (|a.body| == 6 || |a.body| == 8) && a.port == 0
  }

  lemma ReadNumber(d: string, rest: string, vals: seq<nat>)
    requires |vals| < 8 && (forall i :: 0 <= i < |vals| ==> vals[i] < 256) && Numeral(d, 16) && Value(d, 16) < 256
    requires rest == "" || ((rest[0] == '-' || rest[0] == ':') && |rest| > 1)
    ensures MacBytes(d + rest, vals) == MacBytes(if rest == "" then "" else rest[1..], vals + [Value(d, 16)])
  {
    hide Value, Strtol;
    MarksAre();
    if rest != "" { MarkStops(rest[0], 16); }
    StrtolNumeral(d, rest, 16);
    assert (d + rest)[|d|..] == rest;
  }

  /** Nothing, or one more separator. */
  predicate Dangling(tail: string) {
    tail == "" || tail == "-" || tail == ":"
  }

  lemma ReadLast(d: string, tail: string, vals: seq<nat>)
    requires |vals| < 8 && (forall i :: 0 <= i < |vals| ==> vals[i] < 256) && Numeral(d, 16) && Value(d, 16) < 256
    requires Dangling(tail)
    ensures MacBytes(d + tail, vals) == if tail == "" then Some(vals + [Value(d, 16)]) else None
  {
    hide Value, Strtol;
    MarksAre();
    if tail != "" { MarkStops(tail[0], 16); }
    StrtolNumeral(d, tail, 16);
    assert (d + tail)[|d|..] == tail;
  }

  /** A MAC address may be written with dashes or with colons, and each byte as any hexadecimal numeral, in either
      case of letters: up to eight of them are read as their values. More are not, nor is a separator at the end. */
  lemma {:induction false} MacSpellings(ds: seq<string>, sep: char, tail: string, vals: seq<nat>)
    requires ds != [] && (sep == '-' || sep == ':') && Dangling(tail)
    requires forall d :: d in ds ==> Numeral(d, 16) && Value(d, 16) < 256
    requires forall i :: 0 <= i < |vals| ==> vals[i] < 256
    ensures MacBytes(Join(ds, sep) + tail, vals)
            == if tail == "" && |vals| + |ds| <= 8 then Some(vals + Values(ds, 16)) else None
    decreases |ds|
  {
    hide Value, Numeral, MacBytes, Dangling;
    var d := ds[0];
    assert d in ds;
    assert d != "" by { NumeralNonempty(d); }
    if |vals| >= 8 {
      TooMany(Join(ds, sep) + tail, vals);
    } else if |ds| == 1 {
      ReadLast(d, tail, vals);
      assert Values(ds[1..], 16) == [];
      assert vals + [Value(d, 16)] == vals + Values(ds, 16);
    } else {
      var after := Join(ds[1..], sep) + tail;
      assert Join(ds, sep) + tail == d + ([sep] + after);
      assert ds[1] in ds;
      NumeralNonempty(ds[1]);
      ReadNumber(d, [sep] + after, vals);
      assert ([sep] + after)[1..] == after;
      forall e | e in ds[1..] ensures Numeral(e, 16) && Value(e, 16) < 256 { assert e in ds; }
      var more := vals + [Value(d, 16)];
      MacSpellings(ds[1..], sep, tail, more);
      assert more + Values(ds[1..], 16) == vals + Values(ds, 16);
    }
  }

  lemma TooMany(t: string, vals: seq<nat>)
    requires t != "" && |vals| >= 8 && forall i :: 0 <= i < |vals| ==> vals[i] < 256
    ensures MacBytes(t, vals) == None
  {
  }

  /** The bytes of a printed MAC address: all of them, unless there are more than eight. */
  lemma ParsePairs(body: seq<bv8>, vals: seq<nat>)
    requires body != [] && forall i :: 0 <= i < |vals| ==> vals[i] < 256
    ensures MacBytes(Join(HexPairs(body), '-'), vals) == if |vals| + |body| <= 8 then Some(vals + Nats(body)) else None
  {
    hide Value, Numeral, MacBytes, Join, Hex2, Nat;
    var ds := HexPairs(body);
    forall i | 0 <= i < |ds| ensures Numeral(ds[i], 16) && Value(ds[i], 16) == Nat(body[i]) { Hex2Value(Nat(body[i])); }
    assert Values(ds, 16) == Nats(body);
    MacSpellings(ds, '-', "", vals);
    assert Join(ds, '-') + "" == Join(ds, '-');
  }

  lemma NumeralNonempty(d: string)
    requires Numeral(d, 16)
    ensures d != ""
  {
  }

  lemma NatsBack(body: seq<bv8>)
    ensures |Nats(body)| == |body|
    ensures forall i :: 0 <= i < |body| ==> Nats(body)[i] < 256 && Byte(Nats(body)[i]) == body[i]
  {
    hide Nat, Byte;
    forall i | 0 <= i < |body| ensures Byte(Nats(body)[i]) == body[i] { NatByte(body[i]); }
  }

  lemma ParsePrintedMac(a: NetAddr)
    requires Valid(a) && !IsIP(a)
    ensures Parse(Text(a, false)) == if |a.body| == 6 || |a.body| == 8 then Some(NetAddr(MAC, 0, a.body)) else None
  {
    hide Join, HexPairs, Nats, ParseV4, ParseV6, MacBytes, Byte;
    var s := Text(a, false);
    MacNotCaptured(a);
    ParsePairs(a.body, []);
    NatsBack(a.body);
    assert [] + Nats(a.body) == Nats(a.body);
    if |a.body| == 6 || |a.body| == 8 {
      var vals := Nats(a.body);
      assert seq(|vals|, i requires 0 <= i < |vals| => Byte(vals[i])) == a.body;
    }
  }

  lemma QuadHead(body: seq<bv8>, tail: string)
    requires |body| == 4
    ensures var s := Join(Decimals(body), '.') + tail; s != "" && IsDigit(s[0], 10) && s[0] != '[' && s[0] != ':'
  {
    hide Decimals, Value, Join;
    DecimalsAre(body);
    ValuesLength(Decimals(body), 10);
    DigitHead(Decimals(body), '.', true);
    MarksAre();
    JoinHead(Decimals(body), '.', true);
  }

  /** Parsing a printed IPv4 or IPv6 address, whatever its port, gives the same address. */
  lemma ParsePrintedIP(a: NetAddr)
    requires Valid(a) && IsIP(a)
    ensures Parse(Text(a, false)) == Some(a)
  {
    hide Groups, Words, Decimals, Join, ParseV4, ParseV6, ParseMac;
    if a.family == IPV4 {
      QuadHead(a.body, if a.port != 0 then PortText(a.port) else "");
      assert Join(Decimals(a.body), '.') + "" == Join(Decimals(a.body), '.');
      ParseQuad(a.body, if a.port != 0 then PortText(a.port) else "", a.port);
    } else if Mapped(a) {
      ParseMapped(a);
    } else {
      ParsePlainV6(a);
      GroupsChars(Words(a.body));
      if a.port == 0 { V6NotCaptured(a); }
    }
  }

  /** Printing and parsing give an address back exactly if it is an IP address, or a six or eight byte MAC address
      without a port. */
  lemma RoundTripIff(a: NetAddr)
    requires Valid(a)
    ensures Parse(Text(a, false)) == Some(a) <==> IsIP(a) || ParsableMac(a)
  {
    hide Text, Parse;
    if IsIP(a) { ParsePrintedIP(a); } else { ParsePrintedMac(a); }
  }

  /** The canonical form of an IP address parses to an equivalent address: plain IPv4 for IPv4 inside IPv6 space. */
  lemma CanonicalRoundTrip(a: NetAddr)
    requires Valid(a) && IsIP(a)
    ensures Parse(Text(a, true)) == if Mapped(a) then ToIPv4(a) else Some(a)
    ensures Parse(Text(a, true)).Some? && Valid(Parse(Text(a, true)).value) && Equal(a, Parse(Text(a, true)).value)
  {
    hide Groups, Words, Decimals, Join, ParseV4, ParseV6, ParseMac, Bracket;
    if Mapped(a) {
      var body := a.body[12..];
      QuadHead(body, if a.port != 0 then PortText(a.port) else "");
      assert Join(Decimals(body), '.') + "" == Join(Decimals(body), '.');
      ParseQuad(body, if a.port != 0 then PortText(a.port) else "", a.port);
    } else {
      assert Text(a, true) == Text(a, false);
      ParsePrintedIP(a);
    }
  }
}
