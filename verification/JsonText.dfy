/** The JSON form of strings, and the printer and parser of ConfigContext objects as loops over a token scanner. */
module JsonText {
  import opened FrameSets
  import AddrText
  import opened Json

  // ---------- Strings ----------

  function EscapeLetter(c: char): char
    requires NeedsEscape(c)
  {
    if c == '\U{0008}' then 'b' else if c == '\U{000c}' then 'f' else if c == '\n' then 'n'
    else if c == '\r' then 'r' else if c == '\t' then 't' else c
  }

  function EscapeChar(c: char): string {
    if NeedsEscape(c) then ['\\', EscapeLetter(c)] else [c]
  }

  function Escape(s: string): string {
    if s == "" then "" else EscapeChar(s[0]) + Escape(s[1..])
  }

  function Quote(s: string): string {
    "\"" + Escape(s) + "\""
  }

  /** What the letter after a backslash stands for, in section 7 of RFC 8259 (without the four-digit form). */
  function Unescape(c: char): Option<char> {
    if c == 'b' then Some('\U{0008}') else if c == 'f' then Some('\U{000c}') else if c == 'n' then Some('\n')
    else if c == 'r' then Some('\r') else if c == 't' then Some('\t')
    else if c == '"' || c == '\\' || c == '/' then Some(c) else None
  }

  function Cons(c: char, r: Option<(string, string)>): Option<(string, string)> {
    match r
    case None => None
    case Some((s, rest)) => Some(([c] + s, rest))
  }

  /** Read a JSON string after its opening quote: its value, and what follows the closing quote. Control characters
      may not stand in it. */
  function ScanString(t: string): Option<(string, string)> {
    if t == "" || t[0] < ' ' then None
    else if t[0] == '"' then Some(("", t[1..]))
    else if t[0] == '\\' then
      if |t| < 2 || Unescape(t[1]).None? then None else Cons(Unescape(t[1]).value, ScanString(t[2..]))
    else Cons(t[0], ScanString(t[1..]))
  }

  /** Characters that a quoted string can carry: no control characters but those that have a letter. */
  predicate Carried(s: string) {
    forall i :: 0 <= i < |s| ==> s[i] >= ' ' || NeedsEscape(s[i])
  }

  /** Quoting a string and reading it gives the string back exactly if it has no control characters besides the five
      that are escaped. */
  lemma {:induction false} QuoteRoundTripIff(s: string, rest: string)
    ensures ScanString(Escape(s) + "\"" + rest) == Some((s, rest)) <==> Carried(s)
    ensures ScanString(Escape(s) + "\"" + rest).None? <==> !Carried(s)
  {
    var t := Escape(s) + "\"" + rest;
    if s == "" {
      assert t == "\"" + rest;
      assert t[1..] == rest;
    } else {
      var tail := Escape(s[1..]) + "\"" + rest;
      var c := s[0];
      QuoteRoundTripIff(s[1..], rest);
      assert Carried(s) <==> (c >= ' ' || NeedsEscape(c)) && Carried(s[1..]) by { CarriedTail(s); }
      assert s == [c] + s[1..];
      if NeedsEscape(c) {
        assert t == ['\\', EscapeLetter(c)] + tail;
        assert t[2..] == tail;
        assert Unescape(EscapeLetter(c)) == Some(c);
      } else {
        assert t == [c] + tail;
        assert t[1..] == tail;
      }
    }
  }

  lemma CarriedTail(s: string)
    requires s != ""
    ensures Carried(s) <==> (s[0] >= ' ' || NeedsEscape(s[0])) && Carried(s[1..])
  {
    assert forall i :: 0 < i < |s| ==> s[i] == s[1..][i - 1];
  }

  /** A key printed as it stands is the quoted key exactly if nothing in it needs an escape. */
  lemma {:induction false} RawKeyIsQuoted(key: string)
    ensures |Escape(key)| >= |key|
    ensures |Escape(key)| == |key| <==> PlainKey(key)
    ensures Escape(key) == key <==> PlainKey(key)
  {
    if key == "" {
    } else {
      RawKeyIsQuoted(key[1..]);
      assert forall i :: 0 < i < |key| ==> key[i] == key[1..][i - 1];
      assert key == [key[0]] + key[1..];
    }
  }

  /** JSON quoting, character by character. */
  method JsonQuoteString(s: string) returns (ret: string)
    ensures ret == Quote(s)
  {
    hide EscapeChar;
    ret := "\"";
    for k := 0 to |s|
      invariant ret + Escape(s[k..]) == "\"" + Escape(s)
    {
      assert s[k..][0] == s[k] && s[k..][1..] == s[k + 1..];
      ret := ret + EscapeChar(s[k]);
    }
    assert s[|s|..] == "";
    ret := ret + "\"";
  }

  // ---------- The printer ----------

  lemma {:induction false} ItemTokensSnoc(items: seq<Json>, x: Json)
    requires ValidAddrs(x) && forall y :: y in items ==> ValidAddrs(y)
    ensures ItemTokens(items + [x]) == ItemTokens(items) + (if items == [] then [] else [Comma]) + TokensOf(x)
  {
    hide TokensOf, ValidAddrs;
    var more := items + [x];
    if items == [] {
      assert more == [x];
    } else {
      assert more[1..] == items[1..] + [x];
      ItemTokensSnoc(items[1..], x);
    }
  }

  lemma {:induction false} MemberTokensSnoc(members: seq<Member>, m: Member)
    requires ValidAddrs(m.value) && forall y :: y in members ==> ValidAddrs(y.value)
    ensures MemberTokens(members + [m])
            == MemberTokens(members) + (if members == [] then [] else [Comma])
               + [StrTok(m.key), Colon] + TokensOf(m.value)
  {
    hide TokensOf, ValidAddrs;
    var more := members + [m];
    if members == [] {
      assert more == [m];
    } else {
      assert more[1..] == members[1..] + [m];
      MemberTokensSnoc(members[1..], m);
    }
  }

  /** The tokens of a value, with the loops over arrays and keys. */
  method ElemToTokens(v: Json) returns (ts: seq<Token>)
    requires ValidAddrs(v)
    ensures ts == TokensOf(v)
    decreases v, 1
  {
    hide AddrText.Text;
    match v {
      case Null => ts := [NullTok];
      case Bool(b) => ts := [if b then TrueTok else FalseTok];
      case Int(i) => ts := if i < 0 then [Minus, IntTok(-i)] else [IntTok(i)];
      case Str(s) => ts := [StrTok(s)];
      case Addr(a) => ts := [StrTok(AddrText.Text(a, false))];
      case Arr(items) => ts := ArrayToTokens(items);
      case Obj(members) => ts := ObjectToTokens(members);
    }
  }

  method ArrayToTokens(items: seq<Json>) returns (ts: seq<Token>)
    requires forall x :: x in items ==> ValidAddrs(x)
    ensures ts == [LeftBrace] + ItemTokens(items) + [RightBrace]
    decreases items, 0
  {
    hide TokensOf, ValidAddrs, ItemTokens;
    ts := [LeftBrace];
    var acomma: seq<Token> := [];
    assert ItemTokens(items[..0]) == [] by { NoItems(items[..0]); }
    for k := 0 to |items|
      invariant ts == [LeftBrace] + ItemTokens(items[..k])
      invariant acomma == if k == 0 then [] else [Comma]
    {
      assert items[k] in items;
      var elem := ElemToTokens(items[k]);
      ts := ts + acomma + elem;
      acomma := [Comma];
      assert items[..k + 1] == items[..k] + [items[k]];
      assert forall x :: x in items[..k] ==> x in items;
      ItemTokensSnoc(items[..k], items[k]);
    }
    assert items[..|items|] == items;
    ts := ts + [RightBrace];
  }

  lemma NoItems(items: seq<Json>)
    requires items == []
    ensures ItemTokens(items) == []
  {
  }

  method ObjectToTokens(members: seq<Member>) returns (ts: seq<Token>)
    requires forall m :: m in members ==> ValidAddrs(m.value)
    ensures ts == [LeftCurly] + MemberTokens(members) + [RightCurly]
    decreases members, 0
  {
    hide TokensOf, ValidAddrs, MemberTokens;
    ts := [LeftCurly];
    var comma: seq<Token> := [];
    assert MemberTokens(members[..0]) == [] by { NoneYet(members[..0]); }
    for k := 0 to |members|
      invariant ts == [LeftCurly] + MemberTokens(members[..k])
      invariant comma == if k == 0 then [] else [Comma]
    {
      assert members[k] in members;
      var elem := ElemToTokens(members[k].value);
      ts := ts + comma + [StrTok(members[k].key), Colon] + elem;
      comma := [Comma];
      assert members[..k + 1] == members[..k] + [members[k]];
      assert forall x :: x in members[..k] ==> x in members;
      MemberTokensSnoc(members[..k], members[k]);
    }
    assert members[..|members|] == members;
    ts := ts + [RightCurly];
  }

  lemma NoneYet(members: seq<Member>)
    requires members == []
    ensures MemberTokens(members) == []
  {
  }

  // ---------- The parser ----------

  /** The scanner: tokens are consumed as they are taken. */
  class Scanner {
    var rest: seq<Token>

    constructor (ts: seq<Token>)
      ensures rest == ts
    {
      rest := ts;
    }

    /** The next token, or none at the end of the input. */
    method Peek() returns (t: Option<Token>)
      ensures t == if rest == [] then None else Some(rest[0])
    {
      t := if rest == [] then None else Some(rest[0]);
    }

    method Take() returns (t: Option<Token>)
      modifies this
      ensures t == if old(rest) == [] then None else Some(old(rest)[0])
      ensures rest == Gulp(old(rest))
    {
      t := Peek();
      rest := Gulp(rest);
    }
  }

  /** A table of values under string keys; setting a key replaces what was there. */
  class ConfigContext {
    var values: seq<Member>

    constructor ()
      ensures values == []
    {
      values := [];
    }

    method SetValue(key: string, value: Json)
      modifies this
      ensures values == Replace(old(values), key, value)
    {
      values := Replace(values, key, value);
    }
  }

  /** A complete object, followed by the end of the input. */
  method ParseObjAndEOF(scan: Scanner) returns (r: Option<Json>)
    modifies scan
    ensures r == ParseDocument(old(scan.rest))
  {
    hide ParseObject;
    var cfg := ParseObjectFrom(scan);
    if cfg.Some? {
      var t := scan.Take();
      if t.Some? {
        return None;
      }
      r := Some(Obj(cfg.value));
    } else {
      r := None;
    }
  }

  method ParseObjectFrom(scan: Scanner) returns (r: Option<seq<Member>>)
    modifies scan
    ensures (r, scan.rest) == ParseObject(old(scan.rest))
    decreases |scan.rest|, 1
  {
    hide ParseMembers;
    var t := scan.Peek();
    if t != Some(LeftCurly) {
      var skipped := scan.Take();
      return None;
    }
    var brace := scan.Take();
    var cfg := new ConfigContext();
    t := scan.Peek();
    if t == Some(RightCurly) {
      t := scan.Take();
      return Some(cfg.values);
    }
    ParseMembersFrom(scan, cfg);
    t := scan.Take();
    if t != Some(RightCurly) {
      return None;
    }
    return Some(cfg.values);
  }

  method ParseMembersFrom(scan: Scanner, cfg: ConfigContext)
    modifies scan, cfg
    ensures (cfg.values, scan.rest) == ParseMembers(old(scan.rest), old(cfg.values))
    decreases |scan.rest|, 1
  {
    hide ParsePair;
    ghost var ts, members := scan.rest, cfg.values;
    var t := scan.Peek();
    while t.Some? && t.value.StrTok?
      invariant t == if scan.rest == [] then None else Some(scan.rest[0])
      invariant |scan.rest| <= |ts|
      invariant ParseMembers(scan.rest, cfg.values) == ParseMembers(ts, members)
      decreases |scan.rest|
    {
      ParsePairFrom(scan, cfg);
      t := scan.Peek();
      if t == Some(Comma) {
        var comma := scan.Take();
      } else {
        return;
      }
      t := scan.Peek();
    }
  }

  method ParsePairFrom(scan: Scanner, cfg: ConfigContext)
    requires scan.rest != [] && scan.rest[0].StrTok?
    modifies scan, cfg
    ensures (cfg.values, scan.rest) == ParsePair(old(scan.rest), old(cfg.values))
    decreases |scan.rest|, 0
  {
    hide ParseValue;
    var name := scan.Take();
    var t := scan.Peek();
    if t != Some(Colon) {
      return;
    }
    var colon := scan.Take();
    t := scan.Peek();
    if t == Some(Colon) {
      return;
    }
    var value := ParseValueFrom(scan);
    if value.None? {
      return;
    }
    cfg.SetValue(name.value.s, value.value);
  }

  method ParseValueFrom(scan: Scanner) returns (r: Option<Json>)
    modifies scan
    ensures (r, scan.rest) == ParseValue(old(scan.rest))
    decreases |scan.rest|, 2
  {
    hide ParseObject, ParseArray, StringValue, Signed;
    var t := scan.Peek();
    if t.None? {
      t := scan.Take();
      return None;
    }
    match t.value {
      case StrTok(s) =>
        t := scan.Take();
        r := Some(StringValue(s));
      case Minus =>
        t := scan.Take();
        t := scan.Take();
        r := if t.Some? && t.value.IntTok? then Some(Int(Signed(0 - t.value.v))) else None;
      case IntTok(v) =>
        t := scan.Take();
        r := Some(Int(Signed(v)));
      case TrueTok =>
        t := scan.Take();
        r := Some(Bool(true));
      case FalseTok =>
        t := scan.Take();
        r := Some(Bool(false));
      case NullTok =>
        t := scan.Take();
        r := Some(Null);
      case LeftCurly =>
        var child := ParseObjectFrom(scan);
        r := if child.Some? then Some(Obj(child.value)) else None;
      case LeftBrace =>
        var child := ParseArrayFrom(scan);
        r := if child.Some? then Some(Arr(child.value)) else None;
      case _ =>
        t := scan.Take();
        r := None;
    }
  }

  method ParseArrayFrom(scan: Scanner) returns (r: Option<seq<Json>>)
    modifies scan
    ensures (r, scan.rest) == ParseArray(old(scan.rest))
    decreases |scan.rest|, 1
  {
    hide ParseValue;
    var t := scan.Take();
    if t != Some(LeftBrace) {
      return None;
    }
    ghost var ts := scan.rest;
    var items: seq<Json> := [];
    t := scan.Peek();
    while t.Some? && t != Some(RightBrace)
      invariant t == if scan.rest == [] then None else Some(scan.rest[0])
      invariant |scan.rest| <= |ts|
      invariant ParseItems(scan.rest, items) == ParseItems(ts, [])
      decreases |scan.rest|
    {
      var value := ParseValueFrom(scan);
      if value.None? {
        if items != [] {
          return None;
        }
      } else {
        items := items + [value.value];
      }
      t := scan.Peek();
      if t == Some(Comma) {
        t := scan.Take();
      } else if t != Some(RightBrace) {
        t := scan.Take();
        return None;
      }
      t := scan.Peek();
    }
    if t == Some(RightBrace) {
      t := scan.Take();
      return Some(items);
    }
    return None;
  }
}
