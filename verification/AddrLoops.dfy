/** The printing and parsing of addresses as the loops that do it. */
module AddrLoops {
  import opened FrameSets
  import opened Numerals
  import opened NetAddr
  import opened AddrText
  import opened AddrRoundTrip

  lemma {:induction false} JoinSnoc(ds: seq<string>, d: string, sep: char)
    ensures Join(ds + [d], sep) == if ds == [] then d else Join(ds, sep) + [sep] + d
  {
    if |ds| > 1 {
      assert (ds + [d])[1..] == ds[1..] + [d];
      JoinSnoc(ds[1..], d, sep);
    } else if |ds| == 1 {
      assert (ds + [d])[1..] == [d];
    }
  }

  /** One more group after those already printed. */
  lemma OneMore(w: seq<nat>, from: nat, k: nat)
    requires from <= k < |w|
    ensures Join(Hexes(w[from..k + 1]), ':')
            == if from == k then Digits(w[k], 16) else Join(Hexes(w[from..k]), ':') + ":" + Digits(w[k], 16)
  {
    hide Digits, Join;
    assert Hexes(w[from..k + 1]) == Hexes(w[from..k]) + [Digits(w[k], 16)];
    JoinSnoc(Hexes(w[from..k]), Digits(w[k], 16), ':');
  }

  /** A run of zeros found by the loop is the first gap, and ends where the loop says. */
  lemma GapFound(w: seq<nat>, q: nat, e: nat)
    requires q + 2 <= e <= |w| && (forall i :: q <= i < e ==> w[i] == 0) && (e < |w| ==> w[e] != 0)
    requires NoGapBefore(w, q)
    ensures FirstGap(w, 0) == q && GapEnd(w, q) == e
  {
    assert w[q] == 0 && w[q + 1] == 0;
    if q > 0 { assert w[q - 1] != 0; }
  }

  /** No two zeros in a row among the first q words, and no zero at their end. */
  predicate NoGapBefore(w: seq<nat>, q: nat)
    requires q <= |w|
  {
    (forall i :: 0 <= i && i + 1 < q ==> w[i] != 0 || w[i + 1] != 0) && (q > 0 ==> w[q - 1] != 0)
  }

  lemma NoGapAtAll(w: seq<nat>)
    requires |w| == 8 && (NoGapBefore(w, 8) || (NoGapBefore(w, 7) && w[7] == 0))
    ensures FirstGap(w, 0) == 8
    ensures NoGapBefore(w, 8) ==> FullGroups(w) == Hexes(w)
    ensures !NoGapBefore(w, 8) ==> FullGroups(w) == Hexes(w[..7]) + ["00"]
  {
    hide Digits;
    if NoGapBefore(w, 8) { assert FullGroups(w) == Hexes(w); }
  }

  /** What has been printed of the first k words: all of them but the zeros still held back; or, once a double colon
      is out, what stands before it and everything since. */
  predicate PrintState(w: seq<nat>, k: nat, gs: string, zerocount: nat, doublecolonyet: bool)
    requires k <= |w|
  {
    zerocount <= k &&
    if doublecolonyet then
      && zerocount == 0 && FirstGap(w, 0) < GapEnd(w, FirstGap(w, 0)) < k
      && gs == Join(Hexes(w[0..FirstGap(w, 0)]), ':') + "::" + Join(Hexes(w[GapEnd(w, FirstGap(w, 0))..k]), ':')
    else
      && (forall i :: k - zerocount <= i < k ==> w[i] == 0)
      && NoGapBefore(w, k - zerocount)
      && gs == Join(Hexes(w[0..k - zerocount]), ':')
  }

  lemma HoldZero(w: seq<nat>, k: nat, gs: string, zerocount: nat)
    requires k < |w| && PrintState(w, k, gs, zerocount, false) && w[k] == 0
    ensures PrintState(w, k + 1, gs, zerocount + 1, false)
  {
    hide Join, Hexes, NoGapBefore;
  }

  lemma PrintZeroAndWord(w: seq<nat>, k: nat, gs: string)
    requires 0 < k < |w| && PrintState(w, k, gs, 1, false) && w[k] != 0
    ensures PrintState(w, k + 1, gs + (if k == 1 then "0" else ":0") + (":" + Digits(w[k], 16)), 0, false)
  {
    hide Join, Hexes, NoGapBefore, Digits;
    assert w[k - 1] == 0;
    OneMore(w, 0, k - 1);
    ZeroDigit();
    OneMore(w, 0, k);
    assert NoGapBefore(w, k + 1) by { NoGapGrows(w, k); }
    var zero := if k == 1 then "0" else ":0";
    if k == 1 { assert gs == "" by { NothingYet(w); } }
    assert gs + zero == Join(Hexes(w[0..k]), ':');
    assert gs + zero + (":" + Digits(w[k], 16)) == gs + zero + ":" + Digits(w[k], 16);
  }

  /** A word that is printed, after the zeros held back. */
  lemma PrintWord(w: seq<nat>, k: nat, gs: string, zerocount: nat, doublecolonyet: bool)
    requires k < |w| && PrintState(w, k, gs, zerocount, doublecolonyet) && (doublecolonyet || w[k] != 0)
    ensures var held := if zerocount == 1 then (if k == 1 then "0" else ":0") else if zerocount > 1 then "::" else "";
            var word := (if k == 0 || zerocount > 1 then "" else ":") + Digits(w[k], 16);
            PrintState(w, k + 1, gs + held + word, 0, doublecolonyet || zerocount > 1)
  {
    hide Join, Hexes, NoGapBefore, Digits, FirstGap, GapEnd;
    if doublecolonyet {
      OneMore(w, GapEnd(w, FirstGap(w, 0)), k);
    } else if zerocount > 1 {
      GapFound(w, k - zerocount, k);
      OneMore(w, k, k);
      assert gs + "::" + ("" + Digits(w[k], 16)) == gs + "::" + Digits(w[k], 16);
    } else if zerocount == 1 {
      PrintZeroAndWord(w, k, gs);
    } else {
      OneMore(w, 0, k);
      assert NoGapBefore(w, k + 1) by { NoGapGrows(w, k); }
      assert gs + "" == gs;
      if k == 0 { assert gs == "" by { NothingYet(w); } }
    }
  }

  /** Print eight words, leaving out the first run of two or more zeros. */
  method PrintGroups(body: seq<bv8>) returns (gs: string)
    requires |body| == 16
    ensures gs == Groups(Words(body))
  {
    hide Groups, Words, Word16, Digits, PrintState;
    ghost var w := Words(body);
    gs := "";
    var doublecolonyet, justhaddoublecolon := false, false;
    var zerocount := 0;
    assert PrintState(w, 0, gs, zerocount, doublecolonyet) by { NothingYet(w); }
    for k := 0 to 8
      invariant !justhaddoublecolon && PrintState(w, k, gs, zerocount, doublecolonyet)
    {
      var word := Word16(body[2 * k], body[2 * k + 1]);
      assert w[k] == word by { WordAt(body, k); }
      if !doublecolonyet && word == 0 {
        HoldZero(w, k, gs, zerocount);
        zerocount := zerocount + 1;
      } else {
        PrintWord(w, k, gs, zerocount, doublecolonyet);
        if zerocount == 1 {
          gs := gs + if k == 1 then "0" else ":0";
          zerocount := 0;
        } else if zerocount > 1 {
          gs := gs + "::";
          zerocount := 0;
          doublecolonyet := true;
          justhaddoublecolon := true;
        } else {
          gs := gs + "";
        }
        gs := gs + ((if k == 0 || justhaddoublecolon then "" else ":") + Digits(word, 16));
        justhaddoublecolon := false;
      }
    }
    ghost var printed := gs;
    if zerocount == 1 {
      gs := gs + ":00";
    } else if zerocount > 1 {
      gs := gs + "::";
    }
    PrintedAll(w, printed, gs, zerocount, doublecolonyet);
  }

  lemma NothingYet(w: seq<nat>)
    ensures PrintState(w, 0, "", 0, false) && Join(Hexes(w[0..0]), ':') == ""
  {
  }

  lemma ZeroDigit()
    ensures Digits(0, 16) == "0"
  {
  }

  lemma WordAt(body: seq<bv8>, k: nat)
    requires |body| == 16 && k < 8
    ensures Words(body)[k] == Word16(body[2 * k], body[2 * k + 1])
  {
  }

  lemma NoGapGrows(w: seq<nat>, k: nat)
    requires k < |w| && w[k] != 0 && (NoGapBefore(w, k) || (k > 0 && NoGapBefore(w, k - 1) && w[k - 1] == 0))
    ensures NoGapBefore(w, k + 1)
  {
  }

  /** The printer's last step, in each of its final states. */
  lemma PrintedAll(w: seq<nat>, printed: string, gs: string, zerocount: nat, doublecolonyet: bool)
    requires |w| == 8 && PrintState(w, 8, printed, zerocount, doublecolonyet)
    requires gs == printed + if zerocount == 1 then ":00" else if zerocount > 1 then "::" else ""
    ensures gs == Groups(w)
  {
    hide Hexes, FirstGap, GapEnd, Join, NoGapBefore, FullGroups;
    if doublecolonyet {
      var p := FirstGap(w, 0);
      assert w[0..p] == w[..p] && w[GapEnd(w, p)..8] == w[GapEnd(w, p)..];
    } else if zerocount == 0 {
      NoGapAtAll(w);
      assert w[0..8] == w;
    } else if zerocount == 1 {
      assert w[7] == 0;
      assert !NoGapBefore(w, 8) by { ZeroAtEnd(w); }
      NoGapAtAll(w);
      assert w[0..7] == w[..7];
      JoinSnoc(Hexes(w[..7]), "00", ':');
      assert |Hexes(w[..7])| == 7 by { HexesLength(w[..7]); }
    } else {
      GapFound(w, 8 - zerocount, 8);
      assert w[0..8 - zerocount] == w[..8 - zerocount];
      assert Join(Hexes(w[8..]), ':') == "" by { NothingLeft(w); }
    }
  }

  lemma ZeroAtEnd(w: seq<nat>)
    requires |w| == 8 && w[7] == 0
    ensures !NoGapBefore(w, 8)
  {
  }

  lemma HexesLength(w: seq<nat>)
    ensures |Hexes(w)| == |w|
  {
  }

  lemma NothingLeft(w: seq<nat>)
    requires |w| == 8
    ensures Join(Hexes(w[8..]), ':') == ""
  {
  }

  /** Print bytes with dashes between them. */
  method PrintPairs(body: seq<bv8>) returns (gs: string)
    ensures gs == Join(HexPairs(body), '-')
  {
    hide Hex2, Nat, Join;
    gs := "";
    assert HexPairs(body[..0]) == [] && Join([], '-') == "" by { NoPairs(body); }
    for k := 0 to |body|
      invariant gs == Join(HexPairs(body[..k]), '-')
    {
      gs := gs + if k == 0 then Hex2(Nat(body[k])) else "-" + Hex2(Nat(body[k]));
      assert HexPairs(body[..k + 1]) == HexPairs(body[..k]) + [Hex2(Nat(body[k]))];
      JoinSnoc(HexPairs(body[..k]), Hex2(Nat(body[k])), '-');
    }
    assert body[..|body|] == body;
  }

  lemma NoPairs(body: seq<bv8>)
    ensures HexPairs(body[..0]) == [] && Join([], '-') == ""
  {
  }

  /** The text of an address, in its usual or its canonical form. */
  method ToStringFlex(a: NetAddr, canonical: bool) returns (s: string)
    requires Valid(a)
    ensures s == Text(a, canonical)
  {
    hide Groups, Words, Join, Decimals, HexPairs, Digits, Nat;
    if a.family == IPV4 {
      s := PrintQuad(a.body);
      if a.port != 0 {
        s := s + ":" + Digits(a.port, 10);
      }
      return;
    }
    if a.family == IPV6 {
      s := if a.port != 0 then "[" else "";
      if IPV4_SPACE <= a.body {
        var quad := PrintQuad(a.body[12..]);
        s := (if canonical then "" else s + "::ffff:") + quad;
        if a.port != 0 {
          s := s + (if canonical then ":" else "]:") + Digits(a.port, 10);
        }
        return;
      }
      var groups := PrintGroups(a.body);
      s := s + groups;
      if a.port != 0 {
        s := s + "]:" + Digits(a.port, 10);
      }
    } else {
      s := PrintPairs(a.body);
    }
  }

  method PrintQuad(body: seq<bv8>) returns (s: string)
    requires |body| == 4
    ensures s == Join(Decimals(body), '.')
  {
    hide Digits, Nat, Join;
    s := Digits(Nat(body[0]), 10) + "." + Digits(Nat(body[1]), 10) + "." + Digits(Nat(body[2]), 10) + "."
         + Digits(Nat(body[3]), 10);
    assert Decimals(body) ==
      [Digits(Nat(body[0]), 10), Digits(Nat(body[1]), 10), Digits(Nat(body[2]), 10), Digits(Nat(body[3]), 10)];
    JoinFour(Digits(Nat(body[0]), 10), Digits(Nat(body[1]), 10), Digits(Nat(body[2]), 10), Digits(Nat(body[3]), 10));
  }

  lemma JoinFour(d0: string, d1: string, d2: string, d3: string)
    ensures Join([d0, d1, d2, d3], '.') == d0 + "." + d1 + "." + d2 + "." + d3
  {
    hide Join;
    JoinSnoc([], d0, '.');
    JoinSnoc([d0], d1, '.');
    JoinSnoc([d0, d1], d2, '.');
    JoinSnoc([d0, d1, d2], d3, '.');
    assert [] + [d0] == [d0] && [d0] + [d1] == [d0, d1] && [d0, d1] + [d2] == [d0, d1, d2];
    assert [d0, d1, d2] + [d3] == [d0, d1, d2, d3];
  }

  /** Convert a string to an IPv4 address. */
  method StringV4New(s: string) returns (r: Option<NetAddr>)
    ensures r == ParseV4(s)
  {
    hide FromParts, Atoi, DigitVal;
    var dots: seq<nat> := [];
    var colon := -1;
    assert s[0..] == s;
    ScanV4Bounds(s, 0, [], -1);
    for j := 0 to |s|
      invariant ScanV4(s, 0, [], -1) == ScanV4(s[j..], j, dots, colon)
      invariant |dots| <= 3 && colon < j
    {
      assert s[j..][0] == s[j] && s[j..][1..] == s[j + 1..];
      if IsDigit(s[j], 10) {
        continue;
      }
      if s[j] == '.' {
        if |dots| >= 3 || colon >= 0 {
          return None;
        }
        dots := dots + [j];
      } else if s[j] == ':' {
        if colon >= 0 {
          return None;
        }
        colon := j;
        if j > 21 {
          return None;
        }
      } else {
        return None;
      }
    }
    assert s[|s|..] == "";
    if |dots| != 3 {
      return None;
    }
    r := NumbersOf(s, dots, colon);
  }

  method NumbersOf(s: string, dots: seq<nat>, colon: int) returns (r: Option<NetAddr>)
    requires |dots| == 3 && dots[0] < |s| && dots[1] < |s| && dots[2] < |s| && colon < |s|
    ensures r == FromParts(s, dots[0], dots[1], dots[2], colon)
  {
    hide Atoi, Byte;
    var first := Atoi(s);
    if first < 0 || first > 255 {
      return None;
    }
    var others := BytesAfter(s, dots);
    if others.None? {
      return None;
    }
    var port := 0;
    if colon >= 0 {
      if colon > |s| - 2 {
        return None;
      }
      port := Atoi(s[colon + 1..]);
      if port > 65535 {
        return None;
      }
    }
    var bytes := [Byte(first)] + others.value;
    assert bytes == [Byte(first), bytes[1], bytes[2], bytes[3]];
    r := Some(NetAddr(IPV4, port % 65536, bytes));
  }

  /** The number that follows a position. */
  function After(s: string, dot: nat): int
    requires dot < |s|
  {
    Atoi(s[dot + 1..])
  }

  method BytesAfter(s: string, dots: seq<nat>) returns (r: Option<seq<bv8>>)
    requires |dots| == 3 && dots[0] < |s| && dots[1] < |s| && dots[2] < |s|
    ensures r.Some? <==> IsByte(After(s, dots[0])) && IsByte(After(s, dots[1])) && IsByte(After(s, dots[2]))
    ensures r.Some? ==> r.value == [Byte(After(s, dots[0])), Byte(After(s, dots[1])), Byte(After(s, dots[2]))]
  {
    hide After, Byte;
    var addresses: seq<bv8> := [];
    for j := 0 to 3
      invariant |addresses| == j
      invariant forall i :: 0 <= i < j ==> IsByte(After(s, dots[i])) && addresses[i] == Byte(After(s, dots[i]))
    {
      var byte := After(s, dots[j]);
      if byte < 0 || byte > 255 {
        return None;
      }
      addresses := addresses + [Byte(byte)];
    }
    r := Some(addresses);
  }

  /** Convert a string to a MAC address. */
  method StringMacNew(s: string) returns (r: Option<NetAddr>)
    ensures r == ParseMac(s)
  {
    hide Strtol, Byte;
    var cp := s;
    var hexvals: seq<nat> := [];
    while cp != ""
      invariant forall i :: 0 <= i < |hexvals| ==> hexvals[i] < 256
      invariant MacBytes(s, []) == MacBytes(cp, hexvals)
      decreases |cp|
    {
      if |hexvals| >= 8 {
        return None;
      }
      var (hexvalue, used) := Strtol(cp, 16);
      if hexvalue < 0 || hexvalue > 255 || used == 0 {
        return None;
      }
      hexvals := hexvals + [hexvalue];
      cp := cp[used..];
      if At(cp, 0) == '-' || At(cp, 0) == ':' {
        cp := cp[1..];
        if cp == "" {
          return None;
        }
      }
    }
    if |hexvals| == 6 || |hexvals| == 8 {
      r := Some(NetAddr(MAC, 0, seq(|hexvals|, i requires 0 <= i < |hexvals| => Byte(hexvals[i]))));
    } else {
      r := None;
    }
  }

  /** Convert a string to an IPv6 address, possibly with a port. */
  method StringV6New(s: string) returns (r: Option<NetAddr>)
    ensures r == ParseV6(s)
  {
    hide ParseV6Chars, IndexOf, Strtol;
    var first, n, port := s, |s|, 0;
    if At(s, 0) == '[' {
      var rbracketpos := 1 + IndexOf(s[1..], ']');
      if rbracketpos >= |s| || At(s, rbracketpos + 1) != ':' {
        return None;
      }
      var (p, used) := Strtol(s[rbracketpos + 2..], 10);
      if rbracketpos + 2 + used != |s| || p <= 0 || p >= 65536 {
        return None;
      }
      first, n, port := s[1..], rbracketpos - 1, p;
    }
    r := ConvertChars(first, n, port);
  }

  /** The loop that breaks address characters into chunks, and the bytes that they make. */
  method ConvertChars(first: string, n: int, port: nat) returns (r: Option<NetAddr>)
    requires port < 65536
    ensures r == ParseV6Chars(first, n, port)
  {
    hide Chunks, Assemble, ScanOk;
    var cur, left, gap, v4 := first, n, -1, false;
    if At(cur, 0) == ':' && At(cur, 1) == ':' {
      gap := 0;
      cur, left := cur[2..], left - 2;
      if "ffff:" <= cur && '.' in cur[5..] {
        v4 := true;
        cur, left := cur[5..], left - 5;
        assert cur == first[7..];
      }
    }
    assert first[0..] == first;
    ChunksOk(cur, left, 0, gap, v4, [], None);
    var scan := ChunkLoop(cur, left, gap, v4);
    if scan.None? {
      return None;
    }
    r := Assemble(scan.value, v4, port);
  }

  method ChunkLoop(start: string, n: int, startGap: int, v4: bool) returns (r: Option<Scan>)
    ensures r == Chunks(start, n, 0, startGap, v4, [], None)
  {
    hide Strtol;
    var cur, left, gap := start, n, startGap;
    var chunks: seq<nat> := [];
    var stop: Option<(string, int)> := None;
    var k := 0;
    while k < MaxChunks(v4) && left > 0
      invariant 0 <= k <= MaxChunks(v4)
      invariant Chunks(start, n, 0, startGap, v4, [], None) == Chunks(cur, left, k, gap, v4, chunks, stop)
      decreases MaxChunks(v4) - k
    {
      ghost var cur0, left0, gap0, chunks0, stop0 := cur, left, gap, chunks, stop;
      var (chunk, used) := Strtol(cur, ChunkBase(v4));
      if chunk < 0 || chunk > MaxChunk(v4) {
        return None;
      }
      chunks := chunks + [chunk];
      var at, m := cur[used..], left - used;
      assert Chunks(cur0, left0, k, gap0, v4, chunks0, stop0) == Delimited(at, m, k, gap0, v4, chunks);
      if m > 0 && At(at, 0) != Delimiter(v4) {
        return None;
      }
      var skip := 0;
      if v4 && At(at, 0) == '.' {
        skip := 1;
      } else if !v4 && At(at, 0) == ':' {
        if At(at, 1) == ':' {
          if gap >= 0 {
            return None;
          }
          gap := k + 1;
          skip := 2;
        } else {
          skip := 1;
        }
      } else if At(at, 0) != ']' && At(at, 0) != '\0' {
        return None;
      }
      assert Delimited(at, m, k, gap0, v4, chunks) == More(at, skip, m, k, gap, v4, chunks);
      cur, left := at[skip..], m - skip;
      stop := Some((at, m));
      if m <= 0 {
        return Some(Scan(chunks, k, gap, stop));
      }
      k := k + 1;
    }
    r := Some(Scan(chunks, k, gap, stop));
  }

  /** Convert the text of an address, trying the parsers in order. */
  method StringNew(s: string) returns (r: Option<NetAddr>)
    ensures r == Parse(s)
  {
    hide ParseV4, ParseV6, ParseMac;
    var addr0 := At(s, 0);
    r := None;
    if addr0 == '[' || addr0 == ':' {
      r := StringV6New(s);
      return;
    }
    if IsDigit(addr0, 10) {
      r := StringV4New(s);
      if r.None? {
        r := StringV6New(s);
        if r.None? {
          r := StringMacNew(s);
        }
      }
    } else if IsDigit(addr0, 16) {
      r := StringV6New(s);
      if r.None? {
        r := StringMacNew(s);
      }
    }
  }
}
