/** Network addresses: equivalence across families, hashing, conversions, and prefix masks. */
module NetAddr {
  import opened FrameSets

  const IPV4 := 1
  const IPV6 := 2
  const MAC := 6

  const IPV4_SPACE: seq<bv8> := [0, 0, 0, 0, 0, 0, 0, 0, 0, 0, 0xff, 0xff]
  const IPV6_LOOP: seq<bv8> := [0, 0, 0, 0, 0, 0, 0, 0, 0, 0, 0, 0, 0, 0, 0, 1]
  const IPV4_LOOP: seq<bv8> := [127, 0, 0, 1]
  const IPV6_ANY: seq<bv8> := [0, 0, 0, 0, 0, 0, 0, 0, 0, 0, 0, 0, 0, 0, 0, 0]
  const IPV4_ANY: seq<bv8> := [0, 0, 0, 0]

  datatype NetAddr = NetAddr(family: nat, port: nat, body: seq<bv8>)

  /** What the constructors make. */
  predicate Valid(a: NetAddr) {
    && a.family < 65536 && a.port < 65536 && 4 <= |a.body| < 65536
    && (a.family == IPV4 ==> |a.body| == 4)
    && (a.family == IPV6 ==> |a.body| == 16)
  }

  predicate IsIP(a: NetAddr) {
    a.family == IPV4 || a.family == IPV6
  }

  predicate Mapped(a: NetAddr) {
    a.family == IPV6 && IPV4_SPACE <= a.body
  }

  // ---------- Equality ----------

  /** Are these two addresses equivalent? */
  predicate Equal(a: NetAddr, b: NetAddr)
    requires Valid(a) && Valid(b)
    decreases if a.family == IPV4 && b.family == IPV6 then 1 else 0
  {
    if IsIP(a) && IsIP(b) && a.port != b.port then false
    else if a.family == IPV6 && b.family == IPV4 then
      (IPV4_SPACE <= a.body && a.body[12..] == b.body) || (a.body == IPV6_LOOP && b.body == IPV4_LOOP)
    else if a.family == IPV6 && b.family == IPV6 && a.body == IPV6_LOOP && b.body == IPV4_SPACE + IPV4_LOOP then true
    else if a.family == IPV6 && b.family == IPV6 && a.body == IPV4_SPACE + IPV4_LOOP && b.body == IPV6_LOOP then true
    else if a.family == IPV4 && b.family == IPV6 then Equal(b, a)
    else a.family == b.family && a.body == b.body
  }

  /** One address for each equivalence class: IPv4 in its IPv6 form, both loopbacks as ::1, no port outside IP. */
  function Canon(a: NetAddr): NetAddr
    requires Valid(a)
  {
    if a.family == IPV4 then
      NetAddr(IPV6, a.port, if a.body == IPV4_LOOP then IPV6_LOOP else IPV4_SPACE + a.body)
    else if a.family == IPV6 then
      if a.body == IPV4_SPACE + IPV4_LOOP then a.(body := IPV6_LOOP) else a
    else a.(port := 0)
  }

  /** Equivalence is equality of canonical forms, and so reflexive, symmetric and transitive. */
  lemma EqualIsCanonical(a: NetAddr, b: NetAddr)
    requires Valid(a) && Valid(b)
    ensures Equal(a, b) <==> Canon(a) == Canon(b)
  {
    if a.family == IPV6 && b.family == IPV4 {
      MixedEqual(a, b);
    } else if a.family == IPV4 && b.family == IPV6 {
      MixedEqual(b, a);
    } else if a.family == IPV4 && b.family == IPV4 {
      assert (IPV4_SPACE + a.body)[12..] == a.body && (IPV4_SPACE + b.body)[12..] == b.body;
      assert (IPV4_SPACE + a.body)[10] != IPV6_LOOP[10] && (IPV4_SPACE + b.body)[10] != IPV6_LOOP[10];
    }
  }

  lemma MixedEqual(a: NetAddr, b: NetAddr)
    requires Valid(a) && Valid(b) && a.family == IPV6 && b.family == IPV4
    ensures Equal(a, b) <==> Canon(a) == Canon(b)
  {
    assert (IPV4_SPACE + b.body)[12..] == b.body;
    assert (IPV4_SPACE + b.body)[10] != IPV6_LOOP[10];
    if IPV4_SPACE <= a.body { assert a.body == IPV4_SPACE + a.body[12..]; }
  }

  // ---------- Conversions ----------

  function ToIPv6(a: NetAddr): Option<NetAddr>
    requires Valid(a)
  {
    if a.family == IPV6 then Some(a)
    else if a.family == IPV4 then
      Some(NetAddr(IPV6, a.port, if a.body == IPV4_LOOP then IPV6_LOOP else IPV4_SPACE + a.body))
    else None
  }

  function ToIPv4(a: NetAddr): Option<NetAddr>
    requires Valid(a)
  {
    if a.family == IPV4 then Some(a)
    else if a.family != IPV6 then None
    else if IPV4_SPACE <= a.body then Some(NetAddr(IPV4, a.port, a.body[12..]))
    else if a.body == IPV6_LOOP then Some(NetAddr(IPV4, a.port, IPV4_LOOP))
    else if a.body == IPV6_ANY then Some(NetAddr(IPV4, a.port, IPV4_ANY))
    else None
  }

  /** Every IP address has an IPv6 form, and it is equivalent. */
  lemma ToIPv6Keeps(a: NetAddr)
    requires Valid(a)
    ensures ToIPv6(a).Some? <==> IsIP(a)
    ensures ToIPv6(a).Some? ==> Valid(ToIPv6(a).value) && Equal(ToIPv6(a).value, a)
  {
    if a.family == IPV4 { assert (IPV4_SPACE + a.body)[12..] == a.body; }
  }

  predicate IPv6Any(a: NetAddr) {
    a.family == IPV6 && a.body == IPV6_ANY
  }

  /** An IPv6 address has an IPv4 form exactly when some IPv4 address is equivalent to it or it is "any"; the form is
      equivalent exactly when it is not "any". */
  lemma ToIPv4Keeps(a: NetAddr)
    requires Valid(a) && a.family == IPV6
    ensures ToIPv4(a).Some? <==> IPv6Any(a) || exists b :: Valid(b) && b.family == IPV4 && Equal(a, b)
    ensures ToIPv4(a).Some? ==> Valid(ToIPv4(a).value) && ToIPv4(a).value.family == IPV4
                                && (Equal(a, ToIPv4(a).value) <==> !IPv6Any(a))
    ensures IPv6Any(a) ==> ToIPv4(a) == Some(NetAddr(IPV4, a.port, [0, 0, 0, 0]))
  {
    if ToIPv4(a).Some? {
      assert IPv6Any(a) ==> a.body[10] != IPV4_SPACE[10];
      assert IPv6Any(a) ==> a.body[15] != IPV6_LOOP[15];
      assert Valid(ToIPv4(a).value);
    }
  }

  // ---------- Hashing ----------

  function Rotate(x: bv32, b: bv8): bv32 {
    ((x << 7) | (x >> 25)) ^ (b as bv32)
  }

  function HashBody(body: seq<bv8>, start: bv32): bv32 {
    if body == [] then start else Rotate(HashBody(body[..|body| - 1], start), body[|body| - 1])
  }

  function HashStart(a: NetAddr, seed: bv32): bv32
    requires Valid(a)
  {
    var start := Word(a.family) ^ seed;
    if IsIP(a) then start ^ Word(a.port) else start
  }

  function Word(n: nat): bv32
    requires n < 65536
  {
    n as bv32
  }

  /** An address hashes like its canonical form. */
  function HashOf(a: NetAddr, seed: bv32): bv32
    requires Valid(a)
  {
    CanonValid(a);
    HashBody(Canon(a).body, HashStart(Canon(a), seed))
  }

  lemma CanonValid(a: NetAddr)
    requires Valid(a)
    ensures Valid(Canon(a))
  {
  }

  /** The address whose bytes are hashed: IP addresses in their IPv6 form. */
  method HashForm(a: NetAddr) returns (use: NetAddr)
    requires Valid(a)
    ensures Valid(use) && use == if IsIP(a) then Canon(a) else a
  {
    use := a;
    if a.family == IPV4 {
      if a.body == IPV4_LOOP {
        use := NetAddr(IPV6, a.port, IPV6_LOOP);
      } else {
        use := ToIPv6(a).value;
      }
    } else if a.family == IPV6 && a.body == IPV4_SPACE + IPV4_LOOP {
      use := NetAddr(IPV6, a.port, IPV6_LOOP);
    }
  }

  /** The hash of an address: its family and IP port, then every byte folded in with a circular shift. */
  method Hash(a: NetAddr, seed: bv32) returns (result: bv32)
    requires Valid(a)
    ensures result == HashOf(a, seed)
  {
    hide Word, Rotate, HashBody;
    var use := HashForm(a);
    result := Word(use.family) ^ seed;
    if IsIP(use) {
      result := result ^ Word(use.port);
    }
    CanonValid(a);
    assert result == HashStart(Canon(a), seed) && use.body == Canon(a).body;
    result := HashBytes(use.body, result);
  }

  method HashBytes(body: seq<bv8>, start: bv32) returns (result: bv32)
    ensures result == HashBody(body, start)
  {
    result := start;
    for j := 0 to |body|
      invariant result == HashBody(body[..j], start)
    {
      assert body[..j + 1][..j] == body[..j];
      result := ((result << 7) | (result >> 25)) ^ (body[j] as bv32);
    }
    assert body[..|body|] == body;
  }

  /** Equivalent addresses hash alike, whatever the seed of the process is. */
  lemma EqualHashAlike(a: NetAddr, b: NetAddr, seed: bv32)
    requires Valid(a) && Valid(b) && Equal(a, b)
    ensures HashOf(a, seed) == HashOf(b, seed)
  {
    EqualIsCanonical(a, b);
  }

  // ---------- The table of connections ----------

  datatype Conn = Conn(qid: nat, endpoint: NetAddr)

  /** Looked up by hash, then by queue id and address. Only IP addresses are ever found. */
  function Find(table: seq<Conn>, qid: nat, dest: NetAddr, seed: bv32): Option<Conn>
    requires Valid(dest) && TableOk(table)
  {
    if !IsIP(dest) then None else Scan(table, qid, ToIPv6(dest).value, seed)
  }

  function Scan(table: seq<Conn>, qid: nat, key: NetAddr, seed: bv32): Option<Conn>
    requires Valid(key) && AllValid(table)
  {
    if table == [] then None
    else if HashOf(table[0].endpoint, seed) == HashOf(key, seed)
            && table[0].qid == qid && Equal(table[0].endpoint, key) then Some(table[0])
    else Scan(table[1..], qid, key, seed)
  }

  predicate AllValid(table: seq<Conn>) {
    forall c :: c in table ==> Valid(c.endpoint)
  }

  predicate Same(c: Conn, qid: nat, dest: NetAddr)
    requires Valid(c.endpoint) && Valid(dest)
  {
    c.qid == qid && Equal(c.endpoint, dest)
  }

  /** No two connections for equivalent endpoints. */
  predicate TableOk(table: seq<Conn>) {
    && AllValid(table)
    && (forall i :: 0 <= i < |table| ==> table[i].endpoint.family == IPV6)
    && forall i, j :: 0 <= i < j < |table| ==> !Same(table[i], table[j].qid, table[j].endpoint)
  }

  /** The connection for an address, added to the table if there is none. */
  function AddConn(table: seq<Conn>, qid: nat, dest: NetAddr, seed: bv32): (seq<Conn>, Conn)
    requires Valid(dest) && IsIP(dest) && TableOk(table)
  {
    var found := Find(table, qid, dest, seed);
    if found.Some? then (table, found.value)
    else
      var c := Conn(qid, ToIPv6(dest).value);
      (table + [c], c)
  }

  lemma {:induction false} ScanFinds(table: seq<Conn>, qid: nat, key: NetAddr, seed: bv32)
    requires Valid(key) && AllValid(table)
    ensures var r := Scan(table, qid, key, seed);
            if r.Some? then r.value in table && Same(r.value, qid, key)
            else forall c :: c in table ==> !Same(c, qid, key)
  {
    hide Equal;
    if table == [] {
    } else {
      if Equal(table[0].endpoint, key) { EqualHashAlike(table[0].endpoint, key, seed); }
      ScanFinds(table[1..], qid, key, seed);
    }
  }

  lemma EqualTrans(a: NetAddr, b: NetAddr, c: NetAddr)
    requires Valid(a) && Valid(b) && Valid(c) && Equal(a, b)
    ensures Equal(a, c) <==> Equal(b, c)
    ensures Equal(c, a) <==> Equal(c, b)
  {
    hide Equal, Canon;
    EqualIsCanonical(a, b);
    EqualIsCanonical(a, c);
    EqualIsCanonical(b, c);
    EqualIsCanonical(c, a);
    EqualIsCanonical(c, b);
  }

  /** A lookup finds the connection for any equivalent spelling of its address, and nothing else. */
  lemma FindIff(table: seq<Conn>, qid: nat, dest: NetAddr, seed: bv32)
    requires Valid(dest) && IsIP(dest) && TableOk(table)
    ensures var r := Find(table, qid, dest, seed);
            if r.Some? then r.value in table && Same(r.value, qid, dest)
            else forall c :: c in table ==> !Same(c, qid, dest)
  {
    hide Equal;
    ToIPv6Keeps(dest);
    var key := ToIPv6(dest).value;
    ScanFinds(table, qid, key, seed);
    forall c | c in table ensures Same(c, qid, key) <==> Same(c, qid, dest) {
      EqualTrans(key, dest, c.endpoint);
    }
  }

  /** However connections are asked for, there is never a second one for an equivalent endpoint; asking again for an
      equivalent endpoint gives the same connection and changes nothing. */
  lemma AddConnUnique(table: seq<Conn>, qid: nat, dest: NetAddr, again: NetAddr, seed: bv32)
    requires Valid(dest) && IsIP(dest) && Valid(again) && IsIP(again) && TableOk(table) && Equal(dest, again)
    ensures var (more, c) := AddConn(table, qid, dest, seed);
            TableOk(more) && c in more && Same(c, qid, dest) && AddConn(more, qid, again, seed) == (more, c)
  {
    hide Equal, HashOf, Scan;
    FindIff(table, qid, dest, seed);
    ToIPv6Keeps(dest);
    var (more, c) := AddConn(table, qid, dest, seed);
    forall i | 0 <= i < |table| ensures c !in table ==> !Same(table[i], qid, c.endpoint) {
      assert table[i] in table;
      EqualTrans(c.endpoint, dest, table[i].endpoint);
    }
    assert Same(c, qid, dest);
    FindIff(more, qid, again, seed);
    EqualTrans(dest, again, c.endpoint);
    var r := Find(more, qid, again, seed);
    assert c in more && Same(c, qid, again);
    OneConnPerEndpoint(more, c, r.value, qid, again);
  }

  lemma OneConnPerEndpoint(table: seq<Conn>, c: Conn, d: Conn, qid: nat, dest: NetAddr)
    requires TableOk(table) && Valid(dest) && c in table && d in table && Same(c, qid, dest) && Same(d, qid, dest)
    ensures c == d
  {
    hide Equal;
    var i :| 0 <= i < |table| && table[i] == c;
    var j :| 0 <= j < |table| && table[j] == d;
    EqualTrans(c.endpoint, dest, d.endpoint);
    EqualTrans(d.endpoint, dest, c.endpoint);
    EqualSym(c.endpoint, dest);
    EqualSym(d.endpoint, dest);
  }

  lemma EqualSym(a: NetAddr, b: NetAddr)
    requires Valid(a) && Valid(b)
    ensures Equal(a, b) <==> Equal(b, a)
  {
    hide Equal, Canon;
    EqualIsCanonical(a, b);
    EqualIsCanonical(b, a);
  }

  // ---------- Prefix masks ----------

  /** The part of a prefix of this many bits that falls in byte n. */
  function ByteMask(cidr: bv8, n: bv8): bv8
    requires n < 16
  {
    if cidr >= 8 * n + 8 then 0xff else if cidr <= 8 * n then 0 else 0xff << (8 - (cidr - 8 * n))
  }

  function Masked(body: seq<bv8>, cidr: bv8): seq<bv8>
    requires |body| <= 16
  {
    seq(|body|, n requires 0 <= n < |body| => MaskedByte(body[n], cidr, n))
  }

  function MaskedByte(b: bv8, cidr: bv8, n: nat): bv8
    requires n < 16
  {
    SmallIndex(n);
    b & ByteMask(cidr, n as bv8)
  }

  lemma SmallIndex(n: nat)
    requires n < 16
    ensures n as bv8 < 16
    ensures n < 8 <==> n as bv8 < 8
  {
  }

  /** The j-th leading bit of a byte. */
  predicate Bit(b: bv8, j: bv8)
    requires j < 8
  {
    (b >> (7 - j)) & 1 == 1
  }

  /** Masking keeps exactly the leading bits: bit j of byte n stays if its position is inside the prefix, and is
      cleared otherwise. */
  lemma MaskKeepsLeadingBits(body: seq<bv8>, cidr: bv8, n: nat, j: bv8)
    requires |body| <= 16 && n < |body| && j < 8 && cidr <= 128
    ensures Bit(Masked(body, cidr)[n], j) <==> Bit(body[n], j) && 8 * (n as bv8) + j < cidr
  {
    hide Bit, ByteMask;
    SmallIndex(n);
    MaskBits(body[n], cidr, n as bv8, j);
  }

  lemma MaskBits(x: bv8, cidr: bv8, n: bv8, j: bv8)
    requires n < 16 && j < 8 && cidr <= 128
    ensures Bit(x & ByteMask(cidr, n), j) <==> Bit(x, j) && 8 * n + j < cidr
  {
  }

  lemma MaskTwiceByte(x: bv8, m: bv8, k: bv8, n: bv8)
    requires n < 16 && m <= 128 && k <= 128
    ensures (x & ByteMask(m, n)) & ByteMask(k, n) == x & ByteMask(if m < k then m else k, n)
  {
  }

  lemma MaskedByteIs(b: bv8, cidr: bv8, n: nat)
    requires n < 16
    ensures n as bv8 < 16 && MaskedByte(b, cidr, n) == b & ByteMask(cidr, n as bv8)
  {
    hide ByteMask;
    SmallIndex(n);
  }

  lemma IndexOfByte(n: nat) returns (i: bv8)
    requires n < 16
    ensures i < 16 && forall b, cidr :: MaskedByte(b, cidr, n) == b & ByteMask(cidr, i)
  {
    hide ByteMask, MaskedByte;
    i := n as bv8;
    SmallIndex(n);
    forall b, cidr ensures MaskedByte(b, cidr, n) == b & ByteMask(cidr, i) { MaskedByteIs(b, cidr, n); }
  }

  lemma MaskedByteTwice(x: bv8, m: bv8, k: bv8, n: nat)
    requires n < 16 && m <= 128 && k <= 128
    ensures MaskedByte(MaskedByte(x, m, n), k, n) == MaskedByte(x, if m < k then m else k, n)
  {
    hide ByteMask, MaskedByte;
    var i := IndexOfByte(n);
    MaskTwiceByte(x, m, k, i);
  }

  /** Masking by m bits and then by k bits is masking by the smaller of the two. */
  lemma MaskTwice(body: seq<bv8>, m: bv8, k: bv8)
    requires |body| <= 16 && m <= 128 && k <= 128
    ensures Masked(Masked(body, m), k) == Masked(body, if m < k then m else k)
  {
    hide MaskedByte;
    forall n | 0 <= n < |body|
      ensures Masked(Masked(body, m), k)[n] == Masked(body, if m < k then m else k)[n]
    {
      MaskedByteTwice(body[n], m, k, n);
    }
  }

  /** One byte of a 64-bit mask, counted from the low end. */
  function MaskByte(mask: bv64, up: bv8): bv8
    requires up < 8
  {
    ((mask >> (up * 8)) & 0xff) as bv8
  }

  lemma HighMask(b: bv8, cidr: bv8, n: nat, mask: bv64)
    requires 1 <= cidr <= 128 && n < 8
    requires mask == if 128 - cidr >= 64 then 0xffff_ffff_ffff_ffff << (128 - cidr - 64) else 0xffff_ffff_ffff_ffff
    ensures n as bv8 < 8 && b & MaskByte(mask, 7 - n as bv8) == MaskedByte(b, cidr, n)
  {
    hide MaskedByte, ByteMask, MaskByte;
    SmallIndex(n);
    MaskedByteIs(b, cidr, n);
    HighMaskByte(cidr, n as bv8, mask);
  }

  lemma HighMaskByte(cidr: bv8, n: bv8, mask: bv64)
    requires 1 <= cidr <= 128 && n < 8
    requires mask == if 128 - cidr >= 64 then 0xffff_ffff_ffff_ffff << (128 - cidr - 64) else 0xffff_ffff_ffff_ffff
    ensures MaskByte(mask, 7 - n) == ByteMask(cidr, n)
  {
  }

  lemma LowMask(b: bv8, cidr: bv8, n: nat, mask: bv64)
    requires 1 <= cidr <= 128 && 8 <= n < 16
    requires mask == if 128 - cidr >= 64 then 0 else 0xffff_ffff_ffff_ffff << (128 - cidr)
    ensures 8 <= n as bv8 < 16 && b & MaskByte(mask, 15 - n as bv8) == MaskedByte(b, cidr, n)
  {
    hide MaskedByte, ByteMask, MaskByte;
    SmallIndex(n);
    MaskedByteIs(b, cidr, n);
    LowMaskByte(cidr, n as bv8, mask);
  }

  lemma LowMaskByte(cidr: bv8, n: bv8, mask: bv64)
    requires 1 <= cidr <= 128 && 8 <= n < 16
    requires mask == if 128 - cidr >= 64 then 0 else 0xffff_ffff_ffff_ffff << (128 - cidr)
    ensures MaskByte(mask, 15 - n) == ByteMask(cidr, n)
  {
  }

  function HostOrder(b0: bv8, b1: bv8, b2: bv8, b3: bv8): bv32 {
    ((b0 as bv32) << 24) | ((b1 as bv32) << 16) | ((b2 as bv32) << 8) | (b3 as bv32)
  }

  function PrefixWord(cidr: bv8): bv32
    requires 1 <= cidr <= 32
  {
    0xffff_ffff << (32 - cidr)
  }

  /** Byte n of a word, in network order. */
  function HostByte(host: bv32, n: nat): bv8
    requires n < 4
  {
    if n == 0 then ((host >> 24) & 0xff) as bv8
    else if n == 1 then ((host >> 16) & 0xff) as bv8
    else if n == 2 then ((host >> 8) & 0xff) as bv8
    else (host & 0xff) as bv8
  }

  lemma WordMaskBits(b0: bv8, b1: bv8, b2: bv8, b3: bv8, cidr: bv8, host: bv32)
    requires 1 <= cidr <= 32
    requires host == (((b0 as bv32) << 24) | ((b1 as bv32) << 16) | ((b2 as bv32) << 8) | (b3 as bv32))
                     & (0xffff_ffff << (32 - cidr))
    ensures ((host >> 24) & 0xff) as bv8 == b0 & ByteMask(cidr, 0)
    ensures ((host >> 16) & 0xff) as bv8 == b1 & ByteMask(cidr, 1)
    ensures ((host >> 8) & 0xff) as bv8 == b2 & ByteMask(cidr, 2)
    ensures (host & 0xff) as bv8 == b3 & ByteMask(cidr, 3)
  {
  }

  lemma WordIs(b0: bv8, b1: bv8, b2: bv8, b3: bv8, cidr: bv8)
    requires 1 <= cidr <= 32
    ensures HostOrder(b0, b1, b2, b3) & PrefixWord(cidr)
            == (((b0 as bv32) << 24) | ((b1 as bv32) << 16) | ((b2 as bv32) << 8) | (b3 as bv32))
               & (0xffff_ffff << (32 - cidr))
  {
  }

  lemma HostBytes(host: bv32)
    ensures HostByte(host, 0) == ((host >> 24) & 0xff) as bv8 && HostByte(host, 1) == ((host >> 16) & 0xff) as bv8
    ensures HostByte(host, 2) == ((host >> 8) & 0xff) as bv8 && HostByte(host, 3) == (host & 0xff) as bv8
  {
  }

  /** The four bytes of a masked 32-bit word, in network order. */
  lemma WordMask(b0: bv8, b1: bv8, b2: bv8, b3: bv8, cidr: bv8)
    requires 1 <= cidr <= 32
    ensures var host := HostOrder(b0, b1, b2, b3) & PrefixWord(cidr);
            && HostByte(host, 0) == b0 & ByteMask(cidr, 0)
            && HostByte(host, 1) == b1 & ByteMask(cidr, 1)
            && HostByte(host, 2) == b2 & ByteMask(cidr, 2)
            && HostByte(host, 3) == b3 & ByteMask(cidr, 3)
  {
    hide ByteMask, HostByte, HostOrder, PrefixWord;
    var host := HostOrder(b0, b1, b2, b3) & PrefixWord(cidr);
    WordIs(b0, b1, b2, b3, cidr);
    HostBytes(host);
    WordMaskBits(b0, b1, b2, b3, cidr, host);
  }

  lemma WordMasked(b0: bv8, b1: bv8, b2: bv8, b3: bv8, cidr: bv8)
    requires 1 <= cidr <= 32
    ensures var host := HostOrder(b0, b1, b2, b3) & PrefixWord(cidr);
            && HostByte(host, 0) == MaskedByte(b0, cidr, 0)
            && HostByte(host, 1) == MaskedByte(b1, cidr, 1)
            && HostByte(host, 2) == MaskedByte(b2, cidr, 2)
            && HostByte(host, 3) == MaskedByte(b3, cidr, 3)
  {
    hide ByteMask, HostOrder, HostByte, PrefixWord;
    WordMask(b0, b1, b2, b3, cidr);
  }

  /** Mask an address body in place. */
  method AndWithCidr(family: nat, body: array<bv8>, cidr: bv8)
    requires family == IPV4 ==> body.Length == 4 && 1 <= cidr <= 32
    requires family == IPV6 ==> body.Length == 16 && 1 <= cidr <= 128
    modifies body
    ensures family == IPV4 || family == IPV6 ==> body[..] == Masked(old(body[..]), cidr)
    ensures family != IPV4 && family != IPV6 ==> body[..] == old(body[..])
  {
    hide MaskedByte;
    if family == IPV4 {
      AndWord(body, cidr);
    } else if family == IPV6 {
      AndBytes(body, cidr);
    }
  }

  /** IPv4: one 32-bit word in host order. */
  method AndWord(body: array<bv8>, cidr: bv8)
    requires body.Length == 4 && 1 <= cidr <= 32
    modifies body
    ensures body[0] == MaskedByte(old(body[0]), cidr, 0) && body[1] == MaskedByte(old(body[1]), cidr, 1)
    ensures body[2] == MaskedByte(old(body[2]), cidr, 2) && body[3] == MaskedByte(old(body[3]), cidr, 3)
  {
    hide MaskedByte, ByteMask, HostOrder, HostByte, PrefixWord;
    WordMasked(body[0], body[1], body[2], body[3], cidr);
    var host := HostOrder(body[0], body[1], body[2], body[3]);
    host := host & PrefixWord(cidr);
    body[0] := HostByte(host, 0);
    body[1] := HostByte(host, 1);
    body[2] := HostByte(host, 2);
    body[3] := HostByte(host, 3);
  }

  /** IPv6: two 64-bit masks, each applied to its eight bytes. */
  method AndBytes(body: array<bv8>, cidr: bv8)
    requires body.Length == 16 && 1 <= cidr <= 128
    modifies body
    ensures forall k :: 0 <= k < 16 ==> body[k] == MaskedByte(old(body[k]), cidr, k)
  {
    hide MaskedByte, ByteMask, MaskByte;
    var mask1: bv64 := 0xffff_ffff_ffff_ffff;
    var mask2: bv64 := 0xffff_ffff_ffff_ffff;
    var shift := 128 - cidr;
    if shift >= 64 {
      mask2 := 0;
      mask1 := mask1 << (shift - 64);
    } else {
      mask2 := mask2 << shift;
    }
    for nbyte := 0 to 8
      invariant forall k :: 0 <= k < nbyte ==> body[k] == MaskedByte(old(body[k]), cidr, k)
      invariant forall k :: nbyte <= k < 16 ==> body[k] == old(body[k])
    {
      HighMask(body[nbyte], cidr, nbyte, mask1);
      body[nbyte] := body[nbyte] & MaskByte(mask1, 7 - nbyte as bv8);
    }
    for nbyte := 8 to 16
      invariant forall k :: 0 <= k < nbyte ==> body[k] == MaskedByte(old(body[k]), cidr, k)
      invariant forall k :: nbyte <= k < 16 ==> body[k] == old(body[k])
    {
      LowMask(body[nbyte], cidr, nbyte, mask2);
      body[nbyte] := body[nbyte] & MaskByte(mask2, 15 - nbyte as bv8);
    }
  }
}
