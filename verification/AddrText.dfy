/** Addresses as text: the printed form, and the three parsers. C strings hold no NUL character. */
module AddrText {
  import opened FrameSets
  import opened Numerals
  import opened NetAddr

  // ---------- Printing ----------

  /** The strings, with a separator between them. */
  function Join(parts: seq<string>, sep: char): string {
    if parts == [] then "" else if |parts| == 1 then parts[0] else parts[0] + [sep] + Join(parts[1..], sep)
  }

  function Nat(b: bv8): (n: nat)
    ensures n < 256
  {
    b as nat
  }

  function Byte(n: int): bv8
    requires 0 <= n < 256
  {
    n as bv8
  }

  function Decimals(body: seq<bv8>): seq<string> {
    seq(|body|, i requires 0 <= i < |body| => Digits(Nat(body[i]), 10))
  }

  function HexPairs(body: seq<bv8>): seq<string> {
    seq(|body|, i requires 0 <= i < |body| => Hex2(Nat(body[i])))
  }

  function Hexes(words: seq<nat>): seq<string> {
    seq(|words|, i requires 0 <= i < |words| => Digits(words[i], 16))
  }

  function Word16(hi: bv8, lo: bv8): nat {
    Nat(hi) * 256 + Nat(lo)
  }

  function Words(body: seq<bv8>): (w: seq<nat>)
    requires |body| == 16
    ensures |w| == 8 && forall i :: 0 <= i < 8 ==> w[i] < 65536
  {
    seq(8, i requires 0 <= i < 8 => Word16(body[2 * i], body[2 * i + 1]))
  }

  /** The first place, from i on, with two zeros in a row; the length if there is none. */
  function FirstGap(w: seq<nat>, i: nat): (p: nat)
    requires i <= |w|
    ensures i <= p <= |w|
    ensures p < |w| ==> p + 1 < |w| && w[p] == 0 && w[p + 1] == 0
    ensures forall k :: i <= k < p && k + 1 < |w| ==> w[k] != 0 || w[k + 1] != 0
    decreases |w| - i
  {
    if i == |w| then i
    else if w[i] == 0 && i + 1 < |w| && w[i + 1] == 0 then i
    else FirstGap(w, i + 1)
  }

  /** The end of the zeros that start at i. */
  function GapEnd(w: seq<nat>, i: nat): (e: nat)
    requires i <= |w|
    ensures i <= e <= |w|
    ensures forall k :: i <= k < e ==> w[k] == 0
    ensures e < |w| ==> w[e] != 0
    decreases |w| - i
  {
    if i == |w| || w[i] != 0 then i else GapEnd(w, i + 1)
  }

  /** The hexadecimal groups when no zeros are left out; a single zero at the very end is printed as 00. */
  function FullGroups(w: seq<nat>): seq<string>
    requires |w| > 0
  {
    Hexes(w[..|w| - 1]) + [if w[|w| - 1] == 0 then "00" else Digits(w[|w| - 1], 16)]
  }

  /** Eight words with the first run of two or more zeros replaced by a double colon. */
  function Groups(w: seq<nat>): string
    requires |w| > 0
  {
    var p := FirstGap(w, 0);
    if p == |w| then Join(FullGroups(w), ':')
    else Join(Hexes(w[..p]), ':') + "::" + Join(Hexes(w[GapEnd(w, p)..]), ':')
  }

  function PortText(port: nat): string {
    ":" + Digits(port, 10)
  }

  /** The printed form; the canonical one shows an IPv4 address inside IPv6 space as plain IPv4. */
  function Text(a: NetAddr, canonical: bool): string
    requires Valid(a)
  {
    if a.family == IPV4 then Join(Decimals(a.body), '.') + (if a.port != 0 then PortText(a.port) else "")
    else if a.family == IPV6 then
      if Mapped(a) then
        var v4 := Join(Decimals(a.body[12..]), '.');
        if canonical then v4 + (if a.port != 0 then PortText(a.port) else "")
        else Bracket("::ffff:" + v4, a.port)
      else Bracket(Groups(Words(a.body)), a.port)
    else Join(HexPairs(a.body), '-')
  }

  /** With a port, an IPv6 address stands in brackets. */
  function Bracket(address: string, port: nat): string {
    if port != 0 then "[" + address + "]" + PortText(port) else address
  }

  // ---------- Parsing ----------

  /** C's view of a string: a NUL after the last character. */
  function At(t: string, i: nat): char {
    if i < |t| then t[i] else '\0'
  }

  /** The positions of the dots and of the colon, if the string looks like an IPv4 address. */
  function ScanV4(t: string, j: nat, dots: seq<nat>, colon: int): Option<(seq<nat>, int)> {
    if t == "" then Some((dots, colon))
    else if IsDigit(t[0], 10) then ScanV4(t[1..], j + 1, dots, colon)
    else if t[0] == '.' then
      if |dots| >= 3 || colon >= 0 then None else ScanV4(t[1..], j + 1, dots + [j], colon)
    else if t[0] == ':' then
      if colon >= 0 || j > 21 then None else ScanV4(t[1..], j + 1, dots, j)
    else None
  }

  lemma {:induction false} ScanV4Bounds(t: string, j: nat, dots: seq<nat>, colon: int)
    requires forall i :: 0 <= i < |dots| ==> dots[i] < j
    requires colon < j
    ensures var r := ScanV4(t, j, dots, colon);
            r.Some? ==> r.value.1 < j + |t| && forall i :: 0 <= i < |r.value.0| ==> r.value.0[i] < j + |t|
  {
    if t == "" {
    } else {
      if IsDigit(t[0], 10) {
        ScanV4Bounds(t[1..], j + 1, dots, colon);
      } else if t[0] == '.' {
        if |dots| < 3 && colon < 0 { ScanV4Bounds(t[1..], j + 1, dots + [j], colon); }
      } else if t[0] == ':' {
        if colon < 0 && j <= 21 { ScanV4Bounds(t[1..], j + 1, dots, j); }
      }
    }
  }

  predicate IsByte(v: int) {
    0 <= v <= 255
  }

  function ParseV4(s: string): Option<NetAddr> {
    ScanV4Bounds(s, 0, [], -1);
    match ScanV4(s, 0, [], -1)
    case None => None
    case Some((dots, colon)) => if |dots| != 3 then None else FromParts(s, dots[0], dots[1], dots[2], colon)
  }

  /** The numbers before and after the dots, and after the colon. */
  function FromParts(s: string, p0: nat, p1: nat, p2: nat, colon: int): Option<NetAddr>
    requires p0 < |s| && p1 < |s| && p2 < |s| && colon < |s|
  {
    hide Atoi;
    var b0, b1, b2, b3 := Atoi(s), Atoi(s[p0 + 1..]), Atoi(s[p1 + 1..]), Atoi(s[p2 + 1..]);
    if !IsByte(b0) || !IsByte(b1) || !IsByte(b2) || !IsByte(b3) then None
    else if colon >= 0 && colon > |s| - 2 then None
    else
      var port := if colon >= 0 then Atoi(s[colon + 1..]) else 0;
      if port > 65535 then None
      else Some(NetAddr(IPV4, port % 65536, [Byte(b0), Byte(b1), Byte(b2), Byte(b3)]))
  }

  /** What the chunk loop leaves behind: the values, the index, where a double colon was, and the last place that
      strtol stopped at, with the number of address characters left there. */
  datatype Scan = Scan(chunks: seq<nat>, index: nat, gap: int, stop: Option<(string, int)>)

  function Delimiter(v4: bool): char {
    if v4 then '.' else ':'
  }

  function MaxChunks(v4: bool): nat {
    if v4 then 4 else 8
  }

  function ChunkBase(v4: bool): Base {
    if v4 then 10 else 16
  }

  function MaxChunk(v4: bool): nat {
    if v4 then 255 else 65535
  }

  /** Break address characters into chunks; n of them are left at the start of t. */
  function Chunks(t: string, n: int, k: nat, gap: int, v4: bool, chunks: seq<nat>,
          stop: Option<(string, int)>): Option<Scan>
    decreases 8 - k, 2
  {
    if k >= MaxChunks(v4) || n <= 0 then Some(Scan(chunks, k, gap, stop))
    else
      var (chunk, used) := Strtol(t, ChunkBase(v4));
      if chunk < 0 || chunk > MaxChunk(v4) then None
      else Delimited(t[used..], n - used, k, gap, v4, chunks + [chunk])
  }

  /** What follows a chunk decides how the loop goes on. */
  function Delimited(at: string, left: int, k: nat, gap: int, v4: bool, chunks: seq<nat>): Option<Scan>
    requires k < MaxChunks(v4)
    decreases 8 - k, 1
  {
    if left > 0 && At(at, 0) != Delimiter(v4) then None
    else if v4 && At(at, 0) == '.' then More(at, 1, left, k, gap, v4, chunks)
    else if !v4 && At(at, 0) == ':' then
      if At(at, 1) == ':' then
        if gap >= 0 then None else More(at, 2, left, k, k + 1, v4, chunks)
      else More(at, 1, left, k, gap, v4, chunks)
    else if At(at, 0) != ']' && At(at, 0) != '\0' then None
    else More(at, 0, left, k, gap, v4, chunks)
  }

  /** The end of one turn of the chunk loop. */
  function More(at: string, skip: nat, left: int, k: nat, gap: int, v4: bool, chunks: seq<nat>): Option<Scan>
    requires skip <= |at| && k < MaxChunks(v4)
    decreases 8 - k, 0
  {
    if left <= 0 then Some(Scan(chunks, k, gap, Some((at, left))))
    else Chunks(at[skip..], left - skip, k + 1, gap, v4, chunks, Some((at, left)))
  }

  function Zeros(n: int): (z: seq<nat>)
    ensures |z| == if n <= 0 then 0 else n
    ensures forall i :: 0 <= i < |z| ==> z[i] == 0
  {
    if n <= 0 then [] else [0] + Zeros(n - 1)
  }

  /** Put the zeros back in. */
  function Fill(chunks: seq<nat>, index: nat, gap: int): seq<nat>
    requires |chunks| == 8 && index < 8 && gap <= index + 1
  {
    if gap < 0 then chunks[..index + 1]
    else if gap <= index then chunks[..gap] + Zeros(7 - index) + chunks[gap..index + 1]
    else chunks[..index + 1] + Zeros(7 - index)
  }

  function BodyOf(w: seq<nat>): seq<bv8>
    requires |w| == 8 && forall i :: 0 <= i < 8 ==> w[i] < 65536
  {
    seq(16, i requires 0 <= i < 16 => if i % 2 == 0 then Byte(w[i / 2] / 256) else Byte(w[i / 2] % 256))
  }

  predicate AllAtMost(chunks: seq<nat>, max: nat) {
    forall i :: 0 <= i < |chunks| ==> chunks[i] <= max
  }

  predicate ScanOk(r: Scan, v4: bool) {
    |r.chunks| <= 8 && |r.chunks| <= r.index + 1 && r.gap <= r.index + 1 && AllAtMost(r.chunks, MaxChunk(v4))
  }

  lemma {:induction false} ChunksOk(t: string, n: int, k: nat, gap: int, v4: bool, chunks: seq<nat>,
          stop: Option<(string, int)>)
    requires |chunks| == k <= 8 && gap <= k && AllAtMost(chunks, MaxChunk(v4))
    ensures var r := Chunks(t, n, k, gap, v4, chunks, stop);
            r.Some? ==> ScanOk(r.value, v4)
    decreases 8 - k, 2
  {
    hide Strtol, AllAtMost, Delimited;
    if k < MaxChunks(v4) && n > 0 {
      var (chunk, used) := Strtol(t, ChunkBase(v4));
      if 0 <= chunk <= MaxChunk(v4) {
        AppendAtMost(chunks, chunk, MaxChunk(v4));
        DelimitedOk(t[used..], n - used, k, gap, v4, chunks + [chunk]);
      }
    }
  }

  lemma {:induction false} DelimitedOk(at: string, left: int, k: nat, gap: int, v4: bool, chunks: seq<nat>)
    requires k < MaxChunks(v4) && |chunks| == k + 1 && gap <= k && AllAtMost(chunks, MaxChunk(v4))
    ensures var r := Delimited(at, left, k, gap, v4, chunks);
            r.Some? ==> ScanOk(r.value, v4)
    decreases 8 - k, 1
  {
    hide AllAtMost, More, ScanOk;
    if At(at, 0) == ':' && At(at, 1) == ':' { MoreOk(at, 2, left, k, k + 1, v4, chunks); }
    if At(at, 0) == ':' || At(at, 0) == '.' { MoreOk(at, 1, left, k, gap, v4, chunks); }
    MoreOk(at, 0, left, k, gap, v4, chunks);
  }

  lemma AppendAtMost(chunks: seq<nat>, chunk: nat, max: nat)
    requires AllAtMost(chunks, max) && chunk <= max
    ensures AllAtMost(chunks + [chunk], max)
  {
  }

  lemma {:induction false} MoreOk(at: string, skip: nat, left: int, k: nat, gap: int, v4: bool, chunks: seq<nat>)
    requires skip <= |at| && k < MaxChunks(v4) && |chunks| == k + 1 && gap <= k + 1
    requires AllAtMost(chunks, MaxChunk(v4))
    ensures var r := More(at, skip, left, k, gap, v4, chunks);
            r.Some? ==> ScanOk(r.value, v4)
    decreases 8 - k, 0
  {
    hide Chunks, AllAtMost;
    if left > 0 { ChunksOk(at[skip..], left - skip, k + 1, gap, v4, chunks, Some((at, left))); }
  }

  function IndexOf(t: string, c: char): (i: nat)
    ensures i <= |t|
    ensures i < |t| ==> t[i] == c
    ensures forall k :: 0 <= k < i ==> t[k] != c
  {
    if t == "" || t[0] == c then 0 else 1 + IndexOf(t[1..], c)
  }

  function ParseV6(s: string): Option<NetAddr> {
    if At(s, 0) == '[' then
      var rb := 1 + IndexOf(s[1..], ']');
      if rb >= |s| || At(s, rb + 1) != ':' then None
      else
        var (port, used) := Strtol(s[rb + 2..], 10);
        if rb + 2 + used != |s| || port <= 0 || port >= 65536 then None
        else ParseV6Chars(s[1..], rb - 1, port)
    else ParseV6Chars(s, |s|, 0)
  }

  /** The address characters: the first n of t. */
  function ParseV6Chars(t: string, n: int, port: nat): Option<NetAddr>
    requires port < 65536
  {
    if At(t, 0) == ':' && At(t, 1) == ':' then
      if "ffff:" <= t[2..] && '.' in t[7..] then FromChunks(t[7..], n - 7, 0, true, port)
      else FromChunks(t[2..], n - 2, 0, false, port)
    else FromChunks(t, n, -1, false, port)
  }

  function FromChunks(t: string, n: int, gap: int, v4: bool, port: nat): Option<NetAddr>
    requires port < 65536 && -1 <= gap <= 0
  {
    hide Chunks, Assemble;
    ChunksOk(t, n, 0, gap, v4, [], None);
    match Chunks(t, n, 0, gap, v4, [], None)
    case None => None
    case Some(r) => Assemble(r, v4, port)
  }

  /** The checks after the chunk loop, and the bytes. */
  function Assemble(r: Scan, v4: bool, port: nat): Option<NetAddr>
    requires ScanOk(r, v4)
  {
    if r.stop.Some? && r.stop.value.1 != 0
       && !(r.stop.value.1 == 2 && At(r.stop.value.0, 0) == ':' && At(r.stop.value.0, 1) == ':') then None
    else if r.gap >= 0 && r.index >= 7 then None
    else if r.gap < 0 && r.index != 7 then None
    else
      var all := r.chunks + Zeros(8 - |r.chunks|);
      if v4 then
        if r.index != 3 then None
        else Some(NetAddr(IPV6, port, IPV4_SPACE + [Byte(all[0]), Byte(all[1]), Byte(all[2]), Byte(all[3])]))
      else Some(NetAddr(IPV6, port, BodyOf(Fill(all, r.index, r.gap))))
  }

  function MacBytes(t: string, vals: seq<nat>): Option<seq<nat>>
    requires forall i :: 0 <= i < |vals| ==> vals[i] < 256
    ensures var r := MacBytes(t, vals); r.Some? ==> forall i :: 0 <= i < |r.value| ==> r.value[i] < 256
    decreases |t|
  {
    if t == "" then Some(vals)
    else if |vals| >= 8 then None
    else
      var (v, used) := Strtol(t, 16);
      if v < 0 || v > 255 || used == 0 then None
      else
        var rest := t[used..];
        if At(rest, 0) == '-' || At(rest, 0) == ':' then
          if |rest| == 1 then None else MacBytes(rest[1..], vals + [v])
        else MacBytes(rest, vals + [v])
  }

  function ParseMac(s: string): Option<NetAddr> {
    match MacBytes(s, [])
    case None => None
    case Some(vals) =>
      if |vals| == 6 || |vals| == 8 then
        Some(NetAddr(MAC, 0, seq(|vals|, i requires 0 <= i < |vals| => Byte(vals[i]))))
      else None
  }

  function OrElse<T>(a: Option<T>, b: Option<T>): Option<T> {
    if a.Some? then a else b
  }

  /** The parsers are tried in an order that depends on the first character. */
  function Parse(s: string): Option<NetAddr> {
    var c := At(s, 0);
    if c == '[' || c == ':' then ParseV6(s)
    else if IsDigit(c, 10) then OrElse(ParseV4(s), OrElse(ParseV6(s), ParseMac(s)))
    else if IsDigit(c, 16) then OrElse(ParseV6(s), ParseMac(s))
    else None
  }
}
