/** ConfigContext objects as JSON tokens: the printer, and the recursive parser over the scanner's tokens. */
module Json {
  import opened FrameSets
  import NetAddr
  import AddrText
  import AddrRoundTrip

  /** The values that a ConfigContext can hold; an object lists its keys in ascending order. */
  datatype Json =
    | Null
    | Bool(b: bool)
    | Int(i: int)
    | Str(s: string)
    | Addr(a: NetAddr.NetAddr)
    | Arr(items: seq<Json>)
    | Obj(members: seq<Member>)

  datatype Member = Member(key: string, value: Json)

  datatype Token =
    | LeftCurly | RightCurly | LeftBrace | RightBrace | Comma | Colon | Minus
    | IntTok(v: nat) | StrTok(s: string) | TrueTok | FalseTok | NullTok

  const TWO_63 := 0x8000_0000_0000_0000
  const TWO_64 := 0x1_0000_0000_0000_0000

  // ---------- Printing ----------

  function TokensOf(v: Json): seq<Token>
    requires ValidAddrs(v)
  {
    match v
    case Null => [NullTok]
    case Bool(b) => [if b then TrueTok else FalseTok]
    case Int(i) => if i < 0 then [Minus, IntTok(-i)] else [IntTok(i)]
    case Str(s) => [StrTok(s)]
    case Addr(a) => [StrTok(AddrText.Text(a, false))]
    case Arr(items) => [LeftBrace] + ItemTokens(items) + [RightBrace]
    case Obj(members) => [LeftCurly] + MemberTokens(members) + [RightCurly]
  }

  function ItemTokens(items: seq<Json>): seq<Token>
    requires forall x :: x in items ==> ValidAddrs(x)
  {
    if items == [] then []
    else if |items| == 1 then TokensOf(items[0])
    else TokensOf(items[0]) + [Comma] + ItemTokens(items[1..])
  }

  function MemberTokens(members: seq<Member>): seq<Token>
    requires forall m :: m in members ==> ValidAddrs(m.value)
  {
    if members == [] then []
    else
      var first := [StrTok(members[0].key), Colon] + TokensOf(members[0].value);
      if |members| == 1 then first else first + [Comma] + MemberTokens(members[1..])
  }

  predicate ValidAddrs(v: Json) {
    match v
    case Addr(a) => NetAddr.Valid(a)
    case Arr(items) => forall x :: x in items ==> ValidAddrs(x)
    case Obj(members) => forall m :: m in members ==> ValidAddrs(m.value)
    case _ => true
  }

  // ---------- Parsing ----------

  /** Take the next token; at the end of the input there is nothing to take. */
  function Gulp(ts: seq<Token>): (r: seq<Token>)
    ensures |r| <= |ts| && (ts != [] ==> |r| < |ts|)
  {
    if ts == [] then [] else ts[1..]
  }

  predicate Next(ts: seq<Token>, t: Token) {
    ts != [] && ts[0] == t
  }

  /** What a 64-bit signed integer makes of a number. */
  function Signed(v: int): int {
    (v + TWO_63) % TWO_64 - TWO_63
  }

  /** A string in address syntax becomes an address. */
  function StringValue(s: string): Json {
    var a := AddrText.Parse(s);
    if a.Some? then Addr(a.value) else Str(s)
  }

  function ParseValue(ts: seq<Token>): (r: (Option<Json>, seq<Token>))
    ensures |r.1| <= |ts| && (ts != [] ==> |r.1| < |ts|)
    decreases |ts|, 2
  {
    if ts == [] then (None, [])
    else
      var rest := ts[1..];
      match ts[0]
      case StrTok(s) => (Some(StringValue(s)), rest)
      case Minus =>
        if rest != [] && rest[0].IntTok? then (Some(Int(Signed(0 - rest[0].v))), rest[1..]) else (None, Gulp(rest))
      case IntTok(v) => (Some(Int(Signed(v))), rest)
      case TrueTok => (Some(Bool(true)), rest)
      case FalseTok => (Some(Bool(false)), rest)
      case NullTok => (Some(Null), rest)
      case LeftCurly =>
        var (members, after) := ParseObject(ts);
        (if members.Some? then Some(Obj(members.value)) else None, after)
      case LeftBrace =>
        var (items, after) := ParseArray(ts);
        (if items.Some? then Some(Arr(items.value)) else None, after)
      case _ => (None, rest)
  }

  function ParseObject(ts: seq<Token>): (r: (Option<seq<Member>>, seq<Token>))
    ensures |r.1| <= |ts| && (ts != [] ==> |r.1| < |ts|)
    decreases |ts|, 1
  {
    if !Next(ts, LeftCurly) then (None, Gulp(ts))
    else if Next(ts[1..], RightCurly) then (Some([]), ts[2..])
    else
      var (members, after) := ParseMembers(ts[1..], []);
      if Next(after, RightCurly) then (Some(members), after[1..]) else (None, Gulp(after))
  }

  /** Pairs separated by commas. A pair with an error is skipped; a comma may end the list. */
  function ParseMembers(ts: seq<Token>, members: seq<Member>): (r: (seq<Member>, seq<Token>))
    ensures |r.1| <= |ts|
    decreases |ts|, 1
  {
    if ts != [] && ts[0].StrTok? then
      var (more, after) := ParsePair(ts, members);
      if Next(after, Comma) then ParseMembers(after[1..], more) else (more, after)
    else (members, ts)
  }

  function ParsePair(ts: seq<Token>, members: seq<Member>): (r: (seq<Member>, seq<Token>))
    requires ts != [] && ts[0].StrTok?
    ensures |r.1| < |ts|
    decreases |ts|, 0
  {
    var rest := ts[1..];
    if !Next(rest, Colon) then (members, rest)
    else if Next(rest[1..], Colon) then (members, rest[1..])
    else
      var (value, after) := ParseValue(rest[1..]);
      (if value.Some? then Replace(members, ts[0].s, value.value) else members, after)
  }

  function ParseArray(ts: seq<Token>): (r: (Option<seq<Json>>, seq<Token>))
    ensures |r.1| <= |ts| && (ts != [] ==> |r.1| < |ts|)
    decreases |ts|, 1
  {
    if !Next(ts, LeftBrace) then (None, Gulp(ts)) else ParseItems(ts[1..], [])
  }

  /** Values separated by commas. A value with an error is skipped as long as the list is empty. */
  function ParseItems(ts: seq<Token>, items: seq<Json>): (r: (Option<seq<Json>>, seq<Token>))
    ensures |r.1| <= |ts|
    decreases |ts|, 3
  {
    if ts == [] then (None, [])
    else if ts[0] == RightBrace then (Some(items), ts[1..])
    else
      var (value, after) := ParseValue(ts);
      if value.None? && items != [] then (None, after)
      else
        var more := if value.Some? then items + [value.value] else items;
        if Next(after, Comma) then ParseItems(after[1..], more)
        else if Next(after, RightBrace) then ParseItems(after, more)
        else (None, Gulp(after))
  }

  /** A whole document is one object. */
  function ParseDocument(ts: seq<Token>): Option<Json> {
    var (members, after) := ParseObject(ts);
    if members.Some? && after == [] then Some(Obj(members.value)) else None
  }

  // ---------- Keys ----------

  /** Byte order, as strcmp has it. */
  predicate KeyLess(a: string, b: string) {
    b != "" && (a == "" || a[0] < b[0] || (a[0] == b[0] && KeyLess(a[1..], b[1..])))
  }

  /** Set a key in a table that is kept in order. */
  function Replace(members: seq<Member>, key: string, value: Json): seq<Member> {
    if members == [] then [Member(key, value)]
    else if members[0].key == key then [Member(key, value)] + members[1..]
    else if KeyLess(key, members[0].key) then [Member(key, value)] + members
    else [members[0]] + Replace(members[1..], key, value)
  }

  lemma {:induction false} KeyLessIsOrder(a: string, b: string, c: string)
    ensures !KeyLess(a, a)
    ensures KeyLess(a, b) ==> !KeyLess(b, a)
    ensures KeyLess(a, b) && KeyLess(b, c) ==> KeyLess(a, c)
  {
    if a != "" {
      KeyLessIsOrder(a[1..], if b == "" then "" else b[1..], if c == "" then "" else c[1..]);
    } else if b != "" && c != "" {
      KeyLessIsOrder(a, b[1..], c[1..]);
    }
  }

  lemma {:induction false} ReplaceAppends(members: seq<Member>, key: string, value: Json)
    requires forall m :: m in members ==> KeyLess(m.key, key)
    ensures Replace(members, key, value) == members + [Member(key, value)]
  {
    if members == [] {
    } else {
      KeyLessIsOrder(members[0].key, key, key);
      ReplaceAppends(members[1..], key, value);
    }
  }

  /** The value that a table has for a key. */
  function Lookup(members: seq<Member>, key: string): Option<Json> {
    if members == [] then None
    else if members[0].key == key then Some(members[0].value)
    else Lookup(members[1..], key)
  }

  /** In a table kept in order, setting a key keeps the order, gives that key its new value and leaves every other
      alone. */
  lemma ReplaceSets(members: seq<Member>, key: string, value: Json)
    requires KeysAscend(members)
    ensures KeysAscend(Replace(members, key, value))
    ensures Lookup(Replace(members, key, value), key) == Some(value)
    ensures forall k :: k != key ==> Lookup(Replace(members, key, value), k) == Lookup(members, k)
  {
    hide Replace, Lookup, KeysAscend;
    ReplaceAscends(members, key, value);
    forall k ensures Lookup(Replace(members, key, value), k) == if k == key then Some(value) else Lookup(members, k) {
      ReplaceLooksUp(members, key, value, k);
    }
  }

  lemma {:induction false} ReplaceLooksUp(members: seq<Member>, key: string, value: Json, k: string)
    ensures Lookup(Replace(members, key, value), k) == if k == key then Some(value) else Lookup(members, k)
  {
    hide KeyLess;
    if members == [] {
    } else {
      ReplaceLooksUp(members[1..], key, value, k);
      assert ([Member(key, value)] + members)[1..] == members;
      assert ([members[0]] + Replace(members[1..], key, value))[1..] == Replace(members[1..], key, value);
      assert ([Member(key, value)] + members[1..])[1..] == members[1..];
    }
  }

  lemma {:induction false} ReplaceAscends(members: seq<Member>, key: string, value: Json)
    requires KeysAscend(members)
    ensures KeysAscend(Replace(members, key, value))
    ensures forall m :: m in Replace(members, key, value) ==> m == Member(key, value) || m in members
  {
    hide KeyLess;
    if members == [] {
    } else if members[0].key == key {
      ConsAscends(Member(key, value), members);
    } else if KeyLess(key, members[0].key) {
      BelowAll(members, key);
    } else {
      ReplaceAscends(members[1..], key, value);
      ReplaceAbove(members, key, value);
    }
  }

  /** Another value for the first key. */
  lemma ConsAscends(m: Member, members: seq<Member>)
    requires KeysAscend(members) && members != [] && members[0].key == m.key
    ensures KeysAscend([m] + members[1..]) && ([m] + members[1..])[1..] == members[1..]
  {
    hide KeyLess;
  }

  lemma BelowAll(members: seq<Member>, key: string)
    requires KeysAscend(members) && members != [] && KeyLess(key, members[0].key)
    ensures forall i :: 0 <= i < |members| ==> KeyLess(key, members[i].key)
  {
    hide KeyLess;
    forall i | 0 <= i < |members| ensures KeyLess(key, members[i].key) {
      KeyLessIsOrder(key, members[0].key, members[i].key);
    }
  }

  lemma ReplaceAbove(members: seq<Member>, key: string, value: Json)
    requires KeysAscend(members) && members != [] && members[0].key != key && !KeyLess(key, members[0].key)
    requires KeysAscend(Replace(members[1..], key, value))
    requires forall m :: m in Replace(members[1..], key, value) ==> m == Member(key, value) || m in members[1..]
    ensures KeysAscend([members[0]] + Replace(members[1..], key, value))
  {
    hide KeyLess, Replace;
    KeyLessIsTotal(key, members[0].key);
    var more := Replace(members[1..], key, value);
    forall i | 0 <= i < |more| ensures KeyLess(members[0].key, more[i].key) {
      assert more[i] in more;
      if more[i] in members[1..] { var j :| 1 <= j < |members| && members[j] == more[i]; }
    }
  }

  lemma {:induction false} KeyLessIsTotal(a: string, b: string)
    ensures a == b || KeyLess(a, b) || KeyLess(b, a)
  {
    if a == "" || b == "" {
    } else {
      KeyLessIsTotal(a[1..], b[1..]);
      assert a == [a[0]] + a[1..] && b == [b[0]] + b[1..];
    }
  }

  // ---------- Round trip ----------

  /** A key that prints as itself: nothing in it needs an escape. */
  predicate PlainKey(key: string) {
    forall i :: 0 <= i < |key| ==> !NeedsEscape(key[i])
  }

  predicate NeedsEscape(c: char) {
    c == '"' || c == '\\' || c == '\U{0008}' || c == '\U{000c}' || c == '\n' || c == '\r' || c == '\t'
  }

  predicate KeysAscend(members: seq<Member>) {
    forall i, j :: 0 <= i < j < |members| ==> KeyLess(members[i].key, members[j].key)
  }

  /** Values as a ConfigContext holds them: 64-bit integers, distinct keys in order, keys that need no escape. */
  predicate WellFormed(v: Json) {
    match v
    case Int(i) => -TWO_63 <= i < TWO_63
    case Addr(a) => NetAddr.Valid(a)
    case Arr(items) => forall x :: x in items ==> WellFormed(x)
    case Obj(members) =>
      KeysAscend(members) && forall m :: m in members ==> PlainKey(m.key) && WellFormed(m.value)
    case _ => true
  }

  /** What the parser makes of a printed value: strings that look like addresses become addresses. */
  function Read(v: Json): Json
    requires ValidAddrs(v)
  {
    match v
    case Str(s) => StringValue(s)
    case Addr(a) => StringValue(AddrText.Text(a, false))
    case Arr(items) => Arr(ReadItems(items))
    case Obj(members) => Obj(ReadMembers(members))
    case _ => v
  }

  function ReadItems(items: seq<Json>): (r: seq<Json>)
    requires forall x :: x in items ==> ValidAddrs(x)
    ensures |r| == |items|
  {
    if items == [] then [] else [Read(items[0])] + ReadItems(items[1..])
  }

  function ReadMembers(members: seq<Member>): (r: seq<Member>)
    requires forall m :: m in members ==> ValidAddrs(m.value)
    ensures |r| == |members|
  {
    if members == [] then []
    else [Member(members[0].key, Read(members[0].value))] + ReadMembers(members[1..])
  }

  /** No string anywhere looks like an address, and every address prints in a form that parses back. */
  predicate Faithful(v: Json) {
    match v
    case Str(s) => AddrText.Parse(s).None?
    case Addr(a) => NetAddr.IsIP(a) || AddrRoundTrip.ParsableMac(a)
    case Arr(items) => forall x :: x in items ==> Faithful(x)
    case Obj(members) => forall m :: m in members ==> Faithful(m.value)
    case _ => true
  }

  lemma {:induction false} WellFormedValid(v: Json)
    requires WellFormed(v)
    ensures ValidAddrs(v)
  {
    match v
    case Arr(items) =>
      forall x | x in items ensures ValidAddrs(x) { WellFormedValid(x); }
    case Obj(members) =>
      forall m | m in members ensures ValidAddrs(m.value) { WellFormedValid(m.value); }
    case _ =>
  }

  lemma SignedBack(i: int)
    requires -TWO_63 <= i < TWO_63
    ensures Signed(i) == i
  {
  }

  /** Parsing the tokens of a value gives that value, as the parser reads it, and leaves what follows alone. */
  lemma {:induction false} ParsePrinted(v: Json, rest: seq<Token>)
    requires WellFormed(v) && ValidAddrs(v)
    ensures ParseValue(TokensOf(v) + rest) == (Some(Read(v)), rest)
    decreases v, 1
  {
    hide StringValue, Signed, ParseObject, ParseArray, ParseItems, ParseMembers;
    var ts := TokensOf(v) + rest;
    match v
    case Int(i) =>
      SignedBack(i);
      if i < 0 { assert ts[1..][1..] == rest && ts[1..][0] == IntTok(-i); } else { assert ts[1..] == rest; }
    case Arr(items) =>
      ParsePrintedArray(items, rest);
      assert ts == [LeftBrace] + (ItemTokens(items) + ([RightBrace] + rest));
    case Obj(members) =>
      ParsePrintedObject(members, rest);
    case _ =>
      assert ts[1..] == rest;
  }

  lemma ParsePrintedArray(items: seq<Json>, rest: seq<Token>)
    requires forall x :: x in items ==> WellFormed(x) && ValidAddrs(x)
    ensures ParseArray([LeftBrace] + (ItemTokens(items) + ([RightBrace] + rest))) == (Some(ReadItems(items)), rest)
    decreases items, 1
  {
    hide WellFormed, ValidAddrs, ItemTokens, ReadItems, ParseArray, ParseItems;
    ArrayUnfolds(ItemTokens(items) + ([RightBrace] + rest));
    assert ([RightBrace] + rest)[1..] == rest;
    if items == [] { NoItems(rest); } else { ParsePrintedItems(items, [], [RightBrace] + rest); }
    assert [] + ReadItems(items) == ReadItems(items);
  }

  lemma NoItems(rest: seq<Token>)
    ensures ItemTokens([]) + ([RightBrace] + rest) == [RightBrace] + rest
    ensures ParseItems([RightBrace] + rest, []) == (Some([]), rest)
  {
  }

  lemma ArrayUnfolds(after: seq<Token>)
    ensures ParseArray([LeftBrace] + after) == ParseItems(after, [])
  {
    hide ParseItems;
    assert ([LeftBrace] + after)[1..] == after;
  }

  /** The first token of a value is not one that ends a list. */
  lemma TokensHead(v: Json)
    requires ValidAddrs(v)
    ensures TokensOf(v) != [] && TokensOf(v)[0] != RightBrace
  {
  }

  /** After an item there must be a comma or the end of the list. */
  function AfterItem(items: seq<Json>, after: seq<Token>): (Option<seq<Json>>, seq<Token>) {
    if Next(after, Comma) then ParseItems(after[1..], items)
    else if Next(after, RightBrace) then (Some(items), after[1..])
    else (None, Gulp(after))
  }

  /** The tokens of items, whatever comes after them. */
  lemma {:induction false} ParsePrintedItems(items: seq<Json>, acc: seq<Json>, after: seq<Token>)
    requires items != [] && forall x :: x in items ==> WellFormed(x) && ValidAddrs(x)
    ensures ParseItems(ItemTokens(items) + after, acc) == AfterItem(acc + ReadItems(items), after)
    decreases items, 0
  {
    hide WellFormed, ValidAddrs, TokensOf, Read, ParseValue;
    var ts := ItemTokens(items) + after;
    var x := items[0];
    TokensHead(x);
    var more := acc + [Read(x)];
    if |items| == 1 {
      assert ts == TokensOf(x) + after;
      ParsePrinted(x, after);
      assert ReadItems(items[1..]) == [];
      assert more == acc + ReadItems(items);
    } else {
      var tail := ItemTokens(items[1..]) + after;
      assert ts == TokensOf(x) + ([Comma] + tail);
      ParsePrinted(x, [Comma] + tail);
      assert ([Comma] + tail)[1..] == tail;
      ParsePrintedItems(items[1..], more, after);
      assert more + ReadItems(items[1..]) == acc + ReadItems(items);
    }
  }

  lemma {:induction false} ParsePrintedObject(members: seq<Member>, rest: seq<Token>)
    requires WellFormed(Obj(members)) && ValidAddrs(Obj(members))
    ensures ParseObject(TokensOf(Obj(members)) + rest) == (Some(ReadMembers(members)), rest)
    decreases members, 2
  {
    hide ParseMembers, Entered, ReadMembers, KeysBefore, KeysAscend;
    var ts := TokensOf(Obj(members)) + rest;
    assert ts[1..] == MemberTokens(members) + ([RightCurly] + rest);
    if members == [] {
      assert ts[2..] == rest;
    } else {
      assert MemberTokens(members)[0] == StrTok(members[0].key);
      MembersOk(members);
      ParsePrintedMembers(members, [], [RightCurly] + rest);
      NothingBefore(members);
      EnteredAppends([], members);
      assert [] + ReadMembers(members) == ReadMembers(members);
      assert ([RightCurly] + rest)[1..] == rest;
    }
  }

  lemma NothingBefore(members: seq<Member>)
    ensures KeysBefore([], members)
  {
  }

  predicate MemberOk(m: Member) {
    WellFormed(m.value) && ValidAddrs(m.value)
  }

  lemma MembersOk(members: seq<Member>)
    requires WellFormed(Obj(members)) && ValidAddrs(Obj(members))
    ensures KeysAscend(members) && forall m :: m in members ==> WellFormed(m.value) && ValidAddrs(m.value)
  {
  }

  /** Keys already in the table come before those still to be read. */
  ghost predicate KeysBefore(acc: seq<Member>, members: seq<Member>) {
    forall m, n :: m in acc && n in members ==> KeyLess(m.key, n.key)
  }

  lemma KeysBeforeRest(acc: seq<Member>, members: seq<Member>, read: Member)
    requires members != [] && KeysAscend(members) && KeysBefore(acc, members) && read.key == members[0].key
    ensures KeysAscend(members[1..]) && KeysBefore(acc + [read], members[1..])
    ensures forall a :: a in acc ==> KeyLess(a.key, members[0].key)
  {
    hide KeyLess;
    forall a, n | a in acc + [read] && n in members[1..] ensures KeyLess(a.key, n.key) {
      if a in acc {
        assert n in members;
      } else {
        var j :| 1 <= j < |members| && members[j] == n;
        assert KeyLess(members[0].key, members[j].key);
      }
    }
    assert members[0] in members;
  }

  lemma MembersUnfold(members: seq<Member>)
    requires members != [] && forall m :: m in members ==> WellFormed(m.value) && ValidAddrs(m.value)
    ensures MemberOk(members[0])
    ensures MemberTokens(members) == PairTokens(members[0])
                                     + if |members| == 1 then [] else [Comma] + MemberTokens(members[1..])
    ensures ReadMembers(members) == [Member(members[0].key, ReadOf(members[0]))] + ReadMembers(members[1..])
  {
    hide WellFormed, ValidAddrs, TokensOf, Read;
    assert members[0] in members;
  }

  /** One turn of the members loop. */
  lemma ReadPair(m: Member, acc: seq<Member>, after: seq<Token>)
    requires MemberOk(m)
    ensures var more := Replace(acc, m.key, ReadOf(m));
            ParseMembers(PairTokens(m) + after, acc)
            == if Next(after, Comma) then ParseMembers(after[1..], more) else (more, after)
    decreases m, 3
  {
    hide WellFormed, ValidAddrs, TokensOf, Read, ParsePair, Replace;
    PrintedPair(m, acc, after);
  }

  /** A table after these pairs have been set, one after the other. */
  function Entered(acc: seq<Member>, members: seq<Member>): seq<Member>
    requires forall m :: m in members ==> WellFormed(m.value) && ValidAddrs(m.value)
    decreases |members|
  {
    if members == [] then acc else Entered(Replace(acc, members[0].key, ReadOf(members[0])), members[1..])
  }

  /** The tokens of pairs, in any order and with any keys, are parsed by setting one after the other; after a comma
      there may be more. */
  lemma {:induction false} ParsePrintedMembers(members: seq<Member>, acc: seq<Member>, after: seq<Token>)
    requires members != [] && forall m :: m in members ==> WellFormed(m.value) && ValidAddrs(m.value)
    ensures ParseMembers(MemberTokens(members) + after, acc) ==
            if Next(after, Comma) then ParseMembers(after[1..], Entered(acc, members))
            else (Entered(acc, members), after)
    decreases members, 1
  {
    hide WellFormed, ValidAddrs, TokensOf, Read, MemberOk, PairTokens, Replace, ParseMembers, MemberTokens, ReadMembers;
    hide ReadOf;
    var m := members[0];
    MembersUnfold(members);
    var ts := MemberTokens(members) + after;
    var more := Replace(acc, m.key, ReadOf(m));
    if |members| == 1 {
      assert ts == PairTokens(m) + after;
      ReadPair(m, acc, after);
      assert members[1..] == [];
    } else {
      var tail := MemberTokens(members[1..]) + after;
      assert ts == PairTokens(m) + ([Comma] + tail);
      ReadPair(m, acc, [Comma] + tail);
      assert ([Comma] + tail)[1..] == tail;
      ParsePrintedMembers(members[1..], more, after);
    }
  }

  /** Keys in ascending order, above those already in the table, are added at its end. */
  lemma {:induction false} EnteredAppends(acc: seq<Member>, members: seq<Member>)
    requires KeysAscend(members) && KeysBefore(acc, members)
    requires forall m :: m in members ==> WellFormed(m.value) && ValidAddrs(m.value)
    ensures Entered(acc, members) == acc + ReadMembers(members)
    decreases members
  {
    hide WellFormed, ValidAddrs, Read, ReadOf, ReadMembers, MemberOk, KeyLess, KeysBefore, KeysAscend, Replace;
    if members == [] {
      NoMembers(members);
    } else {
      MembersUnfold(members);
      var read := Member(members[0].key, ReadOf(members[0]));
      KeysBeforeRest(acc, members, read);
      ReplaceAppends(acc, read.key, read.value);
      EnteredAppends(acc + [read], members[1..]);
      assert acc + [read] + ReadMembers(members[1..]) == acc + ReadMembers(members);
    }
  }

  /** The last value that these pairs give a key. */
  function LastOf(members: seq<Member>, key: string): Option<Json>
    requires forall m :: m in members ==> WellFormed(m.value) && ValidAddrs(m.value)
  {
    if members == [] then None
    else if members[|members| - 1].key == key then Some(ReadOf(members[|members| - 1]))
    else LastOf(members[..|members| - 1], key)
  }

  lemma {:induction false} EnteredSnoc(acc: seq<Member>, members: seq<Member>)
    requires members != [] && forall m :: m in members ==> WellFormed(m.value) && ValidAddrs(m.value)
    ensures var last := members[|members| - 1];
            Entered(acc, members) == Replace(Entered(acc, members[..|members| - 1]), last.key, ReadOf(last))
    decreases members
  {
    hide WellFormed, ValidAddrs, Read, Replace;
    var init := members[..|members| - 1];
    if |members| == 1 {
      assert init == [] && members[1..] == [];
    } else {
      assert init[1..] == members[1..][..|members[1..]| - 1];
      EnteredSnoc(Replace(acc, members[0].key, ReadOf(members[0])), members[1..]);
    }
  }

  /** Setting pairs in any order, with keys repeated or not, gives a table in order in which each key has its last
      value, and keys not among the pairs have the value they had. */
  lemma {:induction false} EnteredIs(acc: seq<Member>, members: seq<Member>, key: string)
    requires KeysAscend(acc) && forall m :: m in members ==> WellFormed(m.value) && ValidAddrs(m.value)
    ensures KeysAscend(Entered(acc, members))
    ensures Lookup(Entered(acc, members), key) ==
            if LastOf(members, key).Some? then LastOf(members, key) else Lookup(acc, key)
    decreases |members|
  {
    hide WellFormed, ValidAddrs, Read, Replace, KeysAscend, Lookup;
    if members == [] {
    } else {
      var init, last := members[..|members| - 1], members[|members| - 1];
      EnteredSnoc(acc, members);
      EnteredIs(acc, init, key);
      ReplaceSets(Entered(acc, init), last.key, ReadOf(last));
    }
  }

  /** Whatever tokens come, a table that is in order stays so, and no key is lost from it. */
  lemma {:induction false} AnyTokensKeepOrder(ts: seq<Token>, members: seq<Member>, key: string)
    requires KeysAscend(members)
    ensures KeysAscend(ParseMembers(ts, members).0)
    ensures Lookup(members, key).Some? ==> Lookup(ParseMembers(ts, members).0, key).Some?
    decreases |ts|
  {
    hide KeysAscend, Lookup, Replace, ParsePair;
    if ts == [] || !ts[0].StrTok? {
    } else {
      PairSetsOwnKey(ts, members, key);
      var (more, after) := ParsePair(ts, members);
      if Next(after, Comma) { AnyTokensKeepOrder(after[1..], more, key); }
    }
  }

  /** A pair sets its own key, if a single colon and a value follow, and otherwise nothing. */
  lemma PairSetsOwnKey(ts: seq<Token>, members: seq<Member>, key: string)
    requires KeysAscend(members) && ts != [] && ts[0].StrTok?
    ensures var more := ParsePair(ts, members).0;
            && KeysAscend(more)
            && Lookup(more, key) ==
               if key == ts[0].s && Next(ts[1..], Colon) && !Next(ts[2..], Colon) && ParseValue(ts[2..]).0.Some?
               then ParseValue(ts[2..]).0 else Lookup(members, key)
  {
    hide KeysAscend, Lookup, Replace, ParseValue;
    if Next(ts[1..], Colon) && !Next(ts[2..], Colon) {
      assert ts[1..][1..] == ts[2..];
      var value := ParseValue(ts[2..]).0;
      if value.Some? { ReplaceSets(members, ts[0].s, value.value); }
    } else if Next(ts[1..], Colon) {
      assert ts[1..][1..] == ts[2..];
    }
  }

  /** Numbers beyond 64 bits wrap around. */
  lemma SignedWraps(v: int)
    ensures -TWO_63 <= Signed(v) < TWO_63 && (Signed(v) - v) % TWO_64 == 0
  {
  }

  /** An object written with its pairs in any order is parsed into a table in order in which each key has its last
      value. */
  lemma ParseAnyOrder(members: seq<Member>, key: string, rest: seq<Token>)
    requires members != [] && forall m :: m in members ==> WellFormed(m.value) && ValidAddrs(m.value)
    ensures var (table, after) := ParseObject([LeftCurly] + (MemberTokens(members) + ([RightCurly] + rest)));
            table.Some? && after == rest && KeysAscend(table.value) && Lookup(table.value, key) == LastOf(members, key)
  {
    hide WellFormed, ValidAddrs, ParseObject, MemberTokens, ParseMembers, Entered, LastOf, Lookup, KeysAscend;
    ObjectEnds(members, [RightCurly] + rest);
    assert ([RightCurly] + rest)[1..] == rest;
    NoKeys(key);
    EnteredIs([], members, key);
  }

  // ---------- Errors ----------

  /** No value begins with this token. */
  predicate BeginsNoValue(t: Token) {
    t == Colon || t == Comma || t == RightCurly || t == RightBrace
  }

  /** After the items of a list: a comma at the end is taken; without a comma, or with an error behind one, there is no
      list. An error in front of the first item is skipped. */
  lemma ArrayErrors(items: seq<Json>, t: Token, rest: seq<Token>)
    requires items != [] && forall x :: x in items ==> WellFormed(x) && ValidAddrs(x)
    ensures var tokens, list := ItemTokens(items), ReadItems(items);
            && ParseArray([LeftBrace] + (tokens + [Comma, RightBrace])) == (Some(list), [])
            && (t != Comma && t != RightBrace ==> ParseArray([LeftBrace] + (tokens + ([t] + rest))) == (None, rest))
            && (BeginsNoValue(t) && t != RightBrace ==>
                  && ParseArray([LeftBrace] + (tokens + ([Comma, t] + rest))) == (None, rest)
                  && ParseArray([LeftBrace, t, Comma] + (tokens + [RightBrace])) == (Some(list), []))
  {
    hide WellFormed, ValidAddrs, ItemTokens, ReadItems, ParseArray, ParseItems;
    var tokens, list := ItemTokens(items), ReadItems(items);
    ArrayEnds(items, [Comma, RightBrace]);
    ListEnds(list);
    ArrayEnds(items, [t] + rest);
    ArrayEnds(items, [Comma, t] + rest);
    assert ([Comma, t] + rest)[1..] == [t] + rest;
    if BeginsNoValue(t) && t != RightBrace {
      BadValue(t, rest, list);
      var after := [Comma] + (tokens + [RightBrace]);
      assert [LeftBrace, t, Comma] + (tokens + [RightBrace]) == [LeftBrace] + ([t] + after);
      ArrayUnfolds([t] + after);
      BadValue(t, after, []);
      assert after[1..] == tokens + [RightBrace];
      ParsePrintedItems(items, [], [RightBrace]);
      assert [] + list == list;
    }
  }

  lemma ListEnds(list: seq<Json>)
    ensures ParseItems([RightBrace], list) == (Some(list), [])
  {
  }

  lemma ArrayEnds(items: seq<Json>, after: seq<Token>)
    requires items != [] && forall x :: x in items ==> WellFormed(x) && ValidAddrs(x)
    ensures ParseArray([LeftBrace] + (ItemTokens(items) + after)) == AfterItem(ReadItems(items), after)
  {
    hide WellFormed, ValidAddrs, ItemTokens, ReadItems, ParseArray, ParseItems;
    ArrayUnfolds(ItemTokens(items) + after);
    ParsePrintedItems(items, [], after);
    assert [] + ReadItems(items) == ReadItems(items);
  }

  /** What has no value at its start is an error, unless the list is still empty. */
  lemma BadValue(t: Token, rest: seq<Token>, items: seq<Json>)
    requires BeginsNoValue(t) && t != RightBrace
    ensures ParseItems([t] + rest, items) == if items != [] then (None, rest) else AfterItem([], rest)
  {
    assert ([t] + rest)[1..] == rest;
  }

  /** After the pairs of an object: a comma at the end is taken; what is neither a comma nor the end makes that there is
      no object. After a whole document there is nothing. */
  lemma ObjectErrors(members: seq<Member>, t: Token, rest: seq<Token>)
    requires members != [] && forall m :: m in members ==> WellFormed(m.value) && ValidAddrs(m.value)
    ensures var pairs := MemberTokens(members);
            && ParseDocument([LeftCurly] + (pairs + [RightCurly])) == Some(Obj(Entered([], members)))
            && ParseDocument([LeftCurly] + (pairs + [Comma, RightCurly])) == Some(Obj(Entered([], members)))
            && (t != Comma && t != RightCurly ==> ParseObject([LeftCurly] + (pairs + ([t] + rest))) == (None, rest))
            && ParseDocument([LeftCurly] + (pairs + ([RightCurly, t] + rest))) == None
  {
    hide WellFormed, ValidAddrs, Entered, ParseMembers, MemberTokens, ParseObject;
    ObjectEnds(members, [RightCurly]);
    ObjectEnds(members, [Comma, RightCurly]);
    ObjectEnds(members, [t] + rest);
    ObjectEnds(members, [RightCurly, t] + rest);
    MembersEnd(Entered([], members));
  }

  lemma ObjectEnds(members: seq<Member>, after: seq<Token>)
    requires members != [] && forall m :: m in members ==> WellFormed(m.value) && ValidAddrs(m.value)
    ensures var (table, more) := if Next(after, Comma) then ParseMembers(after[1..], Entered([], members))
                                 else (Entered([], members), after);
            ParseObject([LeftCurly] + (MemberTokens(members) + after)) ==
            if Next(more, RightCurly) then (Some(table), more[1..]) else (None, Gulp(more))
  {
    hide WellFormed, ValidAddrs, Entered, ParseMembers, ParseObject, MemberTokens;
    var ts := [LeftCurly] + (MemberTokens(members) + after);
    assert ts[1..] == MemberTokens(members) + after;
    MembersHead(members);
    ObjectUnfolds(ts);
    ParsePrintedMembers(members, [], after);
  }

  lemma MembersHead(members: seq<Member>)
    requires members != [] && forall m :: m in members ==> WellFormed(m.value) && ValidAddrs(m.value)
    ensures MemberTokens(members) != [] && MemberTokens(members)[0] == StrTok(members[0].key)
  {
    hide WellFormed, ValidAddrs, TokensOf;
    assert members[0] in members;
  }

  lemma ObjectUnfolds(ts: seq<Token>)
    requires Next(ts, LeftCurly) && !Next(ts[1..], RightCurly)
    ensures ParseObject(ts) == var (members, after) := ParseMembers(ts[1..], []);
                               if Next(after, RightCurly) then (Some(members), after[1..]) else (None, Gulp(after))
  {
    hide ParseMembers;
  }

  lemma MembersEnd(table: seq<Member>)
    ensures ParseMembers([RightCurly], table) == (table, [RightCurly])
  {
  }

  lemma NoKeys(key: string)
    ensures KeysAscend([]) && Lookup([], key) == None
  {
  }

  lemma NoMembers(members: seq<Member>)
    requires members == []
    ensures ReadMembers(members) == []
  {
  }

  function PairTokens(m: Member): seq<Token>
    requires MemberOk(m)
  {
    [StrTok(m.key), Colon] + TokensOf(m.value)
  }

  function ReadOf(m: Member): Json
    requires MemberOk(m)
  {
    Read(m.value)
  }

  /** The first token of a value is not a colon. */
  lemma NoColon(v: Json)
    requires ValidAddrs(v)
    ensures TokensOf(v) != [] && TokensOf(v)[0] != Colon
  {
  }

  lemma {:induction false} PrintedPair(m: Member, acc: seq<Member>, after: seq<Token>)
    requires MemberOk(m)
    ensures ParsePair(PairTokens(m) + after, acc) == (Replace(acc, m.key, ReadOf(m)), after)
    decreases m, 2
  {
    hide WellFormed, ValidAddrs, TokensOf, Read, ParseValue, KeyLess, Replace;
    var ts := PairTokens(m) + after;
    NoColon(m.value);
    assert ts[1..][1..] == TokensOf(m.value) + after;
    assert (TokensOf(m.value) + after)[0] == TokensOf(m.value)[0];
    ParsePrinted(m.value, after);
  }

  // ---------- When a value survives ----------

  lemma AddrSurvivesIff(a: NetAddr.NetAddr)
    requires NetAddr.Valid(a)
    ensures StringValue(AddrText.Text(a, false)) == Addr(a) <==> NetAddr.IsIP(a) || AddrRoundTrip.ParsableMac(a)
  {
    hide AddrText.Text, AddrText.Parse;
    AddrRoundTrip.RoundTripIff(a);
  }

  /** A value is read back as itself exactly when none of its strings looks like an address and all of its addresses
      print in a form that parses back. */
  lemma {:induction false} ReadSameIff(v: Json)
    requires ValidAddrs(v)
    ensures Read(v) == v <==> Faithful(v)
  {
    hide AddrText.Text, AddrText.Parse;
    match v
    case Addr(a) => AddrSurvivesIff(a);
    case Arr(items) =>
      ReadItemsAre(items);
      forall x | x in items ensures Read(x) == x <==> Faithful(x) { ReadSameIff(x); }
      assert ReadItems(items) == items <==> forall k :: 0 <= k < |items| ==> Read(items[k]) == items[k];
    case Obj(members) =>
      ReadMembersAre(members);
      forall m | m in members ensures Read(m.value) == m.value <==> Faithful(m.value) { ReadSameIff(m.value); }
      assert ReadMembers(members) == members <==>
        forall k :: 0 <= k < |members| ==> Read(members[k].value) == members[k].value;
    case _ =>
  }

  lemma {:induction false} ReadItemsAre(items: seq<Json>)
    requires forall x :: x in items ==> ValidAddrs(x)
    ensures forall k :: 0 <= k < |items| ==> ReadItems(items)[k] == Read(items[k])
  {
    if items == [] {
    } else {
      ReadItemsAre(items[1..]);
    }
  }

  lemma {:induction false} ReadMembersAre(members: seq<Member>)
    requires forall m :: m in members ==> ValidAddrs(m.value)
    ensures forall k :: 0 <= k < |members| ==> ReadMembers(members)[k] == Member(members[k].key, Read(members[k].value))
  {
    if members == [] {
    } else {
      ReadMembersAre(members[1..]);
    }
  }

  /** Printing an object and parsing the tokens gives it back exactly when its strings and addresses survive. */
  lemma DocumentRoundTripIff(v: Json)
    requires v.Obj? && WellFormed(v)
    ensures ValidAddrs(v)
    ensures ParseDocument(TokensOf(v)) == Some(Read(v))
    ensures ParseDocument(TokensOf(v)) == Some(v) <==> Faithful(v)
  {
    hide TokensOf, Read, ParseObject, WellFormed, Faithful;
    WellFormedValid(v);
    assert TokensOf(v) + [] == TokensOf(v);
    ParsePrintedObject(v.members, []);
    assert Read(v) == Obj(ReadMembers(v.members)) by { ReadObj(v); }
    ReadSameIff(v);
  }

  lemma ReadObj(v: Json)
    requires v.Obj? && ValidAddrs(v)
    ensures Read(v) == Obj(ReadMembers(v.members))
  {
    hide ReadMembers;
  }
}
