/** The canonical text read by the rules of RFC 8259 and RFC 3629: it is JSON, and says what the tree says. */
module JsonGrammar {
  import opened Options
  import opened CanonicalJson

  // ---- Strings (section 7 of RFC 8259) -------------------------------------------------------

  function HexValueOf(u: CodeUnit): Option<nat> {
    if '0' as nat <= u <= '9' as nat then Some(u - '0' as nat)
    else if 'a' as nat <= u <= 'f' as nat then Some(u - 'a' as nat + 10)
    else if 'A' as nat <= u <= 'F' as nat then Some(u - 'A' as nat + 10)
    else None
  }

  /** The unit that four hexadecimal digits name. */
  function FourHex(t: Text): Option<CodeUnit>
    requires |t| >= 4
  {
    var (a, b, c, d) := (HexValueOf(t[0]), HexValueOf(t[1]), HexValueOf(t[2]), HexValueOf(t[3]));
    if a.Some? && b.Some? && c.Some? && d.Some? && a.value * 4096 + b.value * 256 + c.value * 16 + d.value < 0x10000
    then Some(a.value * 4096 + b.value * 256 + c.value * 16 + d.value) else None
  }

  function Escaped(u: CodeUnit): Option<CodeUnit> {
    if u in {'"' as nat, '\\' as nat, '/' as nat} then Some(u)
    else if u == 'b' as nat then Some(8)
    else if u == 'f' as nat then Some(12)
    else if u == 'n' as nat then Some(10)
    else if u == 'r' as nat then Some(13)
    else if u == 't' as nat then Some(9)
    else None
  }

  function Before(u: CodeUnit, rest: Option<Text>): Option<Text> {
    if rest.Some? then Some([u] + rest.value) else None
  }

  /** What stands between the quotes of a string, if that is allowed there. */
  function Unescape(t: Text): Option<Text> {
    if t == [] then Some([])
    else if t[0] == '\\' as nat then
      if |t| >= 6 && t[1] == 'u' as nat then
        if FourHex(t[2..]).Some? then Before(FourHex(t[2..]).value, Unescape(t[6..])) else None
      else if |t| >= 2 && Escaped(t[1]).Some? then Before(Escaped(t[1]).value, Unescape(t[2..]))
      else None
    else if t[0] == '"' as nat || t[0] < 32 then None
    else Before(t[0], Unescape(t[1..]))
  }

  /** The text is a JSON string for `s`. */
  ghost predicate SaysString(t: Text, s: Text) {
    |t| >= 2 && t[0] == '"' as nat && t[|t| - 1] == '"' as nat && Unescape(t[1..|t| - 1]) == Some(s)
  }

  lemma HexDigitRead(d: nat)
    requires d < 16
    ensures HexValueOf(HexDigit(d)) == Some(d)
  {
  }

  lemma {:induction false} UnitRead(u: CodeUnit, rest: Text)
    ensures Unescape(EscapeUnit(u) + rest) == Before(u, Unescape(rest))
  {
    var t := EscapeUnit(u) + rest;
    if |EscapeUnit(u)| == 6 {
      HexDigitRead(u / 4096);
      HexDigitRead(u / 256 % 16);
      HexDigitRead(u / 16 % 16);
      HexDigitRead(u % 16);
      HexValue(u);
      hide HexDigit, HexValueOf;
      assert FourHex(t[2..]) == Some(u);
      assert t[6..] == rest;
    } else if |EscapeUnit(u)| == 2 {
      assert t[2..] == rest;
    } else {
      assert t[1..] == rest;
    }
  }

  lemma {:induction false} ChunkRead(s: Text, rest: Text)
    requires s != []
    ensures var n := ChunkLength(s);
            Unescape(EscapeChunk(s) + rest) == if Unescape(rest).Some? then Some(s[..n] + Unescape(rest).value) else None
  {
    if StartsWithPair(s) {
      var t := s[..2] + rest;
      assert t[0] == s[0] && t[1..][0] == s[1] && t[1..][1..] == rest;
      assert t[0] >= 32 && t[0] != '"' as nat && t[0] != '\\' as nat;
      assert t[1] >= 32 && t[1] != '"' as nat && t[1] != '\\' as nat;
      assert Unescape(t) == Before(s[0], Unescape(t[1..]));
      assert Unescape(t[1..]) == Before(s[1], Unescape(rest));
      assert forall v: Text :: [s[0]] + ([s[1]] + v) == s[..2] + v;
    } else {
      UnitRead(s[0], rest);
      assert s[..1] == [s[0]];
    }
  }

  /** What stands between the quotes. */
  function Body(s: Text): Text {
    if s == [] then [] else EscapeChunk(s) + Body(s[ChunkLength(s)..])
  }

  lemma {:induction false} QuotedBody(s: Text)
    ensures QuoteBody(s) == Body(s) + ['"' as nat]
    decreases |s|
  {
    if s != [] {
      QuotedBody(s[ChunkLength(s)..]);
      hide EscapeChunk, ChunkLength;
    }
  }

  lemma {:induction false} BodyRead(s: Text)
    ensures Unescape(Body(s)) == Some(s)
    decreases |s|
  {
    if s != [] {
      var n := ChunkLength(s);
      BodyRead(s[n..]);
      ChunkRead(s, Body(s[n..]));
      assert s == s[..n] + s[n..];
      hide Unescape, EscapeChunk, ChunkLength;
    }
  }

  /** A quoted string says the string. */
  lemma {:induction false} QuoteRead(s: Text)
    ensures SaysString(Quote(s), s)
  {
    QuotedBody(s);
    BodyRead(s);
    var t := Quote(s);
    assert t[1..|t| - 1] == Body(s);
    hide Unescape, QuoteBody, Body;
  }

  // ---- Values (sections 3 to 5 of RFC 8259) ----------------------------------------------------

  function Commas(parts: seq<Text>): Text {
    if parts == [] then [] else if |parts| == 1 then parts[0] else parts[0] + [',' as nat] + Commas(parts[1..])
  }

  function Paired(keys: seq<Text>, parts: seq<Text>): seq<Text>
    requires |keys| == |parts|
  {
    seq(|keys|, i requires 0 <= i < |keys| => keys[i] + [':' as nat] + parts[i])
  }

  ghost predicate Spelled(t: Text, word: string) {
    |t| == |word| && forall i | 0 <= i < |t| :: t[i] == word[i] as nat
  }

  /** The members that are written, by key in code-unit order. */
  ghost predicate Written(order: seq<Entry>, es: seq<Entry>) {
    && (forall e :: e in order <==> e in es && !e.value.Undefined?)
    && forall i, j | 0 <= i < j < |order| :: KeyLess(order[i].key, order[j].key)
  }

  /** The text is JSON for the tree: what JSON cannot say is null, undefined members are left out, and members stand in
      the order of their keys. */
  ghost predicate Says(t: Text, v: Json)
    decreases v
  {
    match v
    case Undefined => Spelled(t, "null")
    case Null => Spelled(t, "null")
    case NonFinite => Spelled(t, "null")
    case Bool(b) => Spelled(t, if b then "true" else "false")
    case Number(n) => t == n
    case Str(s) => SaysString(t, s)
    case Array(items) =>
      exists parts: seq<Text> | |parts| == |items| ::
        && t == ['[' as nat] + Commas(parts) + [']' as nat]
        && forall i | 0 <= i < |items| :: Says(parts[i], items[i])
    case Object(es) =>
      exists order: seq<Entry>, keys: seq<Text>, parts: seq<Text> | |keys| == |parts| == |order| && Written(order, es) ::
        && t == ['{' as nat] + Commas(Paired(keys, parts)) + ['}' as nat]
        && (forall i | 0 <= i < |order| :: SaysString(keys[i], order[i].key))
        && forall i | 0 <= i < |order| && order[i].value < v :: Says(parts[i], order[i].value)
  }

  lemma {:induction false} ItemsJoined(v: Json, items: seq<Json>)
    requires forall i | 0 <= i < |items| :: items[i] < v
    ensures JoinItems(v, items) == Commas(seq(|items|, i requires 0 <= i < |items| => StableStringify(items[i])))
    decreases |items|
  {
    var parts := seq(|items|, i requires 0 <= i < |items| => StableStringify(items[i]));
    if |items| > 1 {
      ItemsJoined(v, items[1..]);
      assert parts[1..] == seq(|items[1..]|, i requires 0 <= i < |items[1..]| => StableStringify(items[1..][i]));
    }
  }

  function MemberText(v: Json, es: seq<Entry>): seq<Text>
    requires forall e | e in es :: e.value < v
  {
    seq(|es|, i requires 0 <= i < |es| => Member(v, es[i]))
  }

  lemma {:induction false} MembersJoined(v: Json, es: seq<Entry>)
    requires forall e | e in es :: e.value < v
    ensures JoinMembers(v, es) == Commas(MemberText(v, es))
    decreases |es|
  {
    if |es| > 1 {
      MembersJoined(v, es[1..]);
      assert MemberText(v, es)[1..] == MemberText(v, es[1..]);
    }
  }

  lemma WordsSpelled()
    ensures Spelled(NULL_TEXT, "null") && Spelled(TRUE_TEXT, "true") && Spelled(FALSE_TEXT, "false")
  {
  }

  lemma {:induction false} ArraySays(v: Json, parts: seq<Text>)
    requires v.Array? && |parts| == |v.items|
    requires forall i | 0 <= i < |parts| :: parts[i] == StableStringify(v.items[i]) && Says(parts[i], v.items[i])
    ensures Says(StableStringify(v), v)
  {
    ItemsJoined(v, v.items);
    assert parts == seq(|v.items|, i requires 0 <= i < |v.items| => StableStringify(v.items[i]));
    hide Commas, JoinItems;
    assert StableStringify(v) == ['[' as nat] + Commas(parts) + [']' as nat];
  }

  function Keys(order: seq<Entry>): seq<Text> {
    seq(|order|, i requires 0 <= i < |order| => Quote(order[i].key))
  }

  function Values(order: seq<Entry>): seq<Text> {
    seq(|order|, i requires 0 <= i < |order| => StableStringify(order[i].value))
  }

  lemma ObjectText(v: Json, order: seq<Entry>)
    requires v.Object? && order == SortByKey(Defined(v.entries)) && forall e | e in order :: e.value < v
    ensures StableStringify(v) == ['{' as nat] + Commas(Paired(Keys(order), Values(order))) + ['}' as nat]
  {
    MembersJoined(v, order);
    hide Commas, JoinMembers, Quote, SortByKey, Defined;
    assert Paired(Keys(order), Values(order)) == MemberText(v, order);
  }

  lemma OrderWritten(v: Json, order: seq<Entry>)
    requires v.Object? && DistinctKeysWithin(v) && order == SortByKey(Defined(v.entries))
    ensures Written(order, v.entries)
  {
    SortedElements(v.entries);
    hide KeyLess, SortByKey, Defined;
  }

  lemma {:induction false} ObjectSays(v: Json, order: seq<Entry>)
    requires v.Object? && DistinctKeysWithin(v) && order == SortByKey(Defined(v.entries))
    requires forall e | e in order :: e.value < v && Says(StableStringify(e.value), e.value)
    ensures Says(StableStringify(v), v)
  {
    var (keys, parts) := (Keys(order), Values(order));
    assert |keys| == |parts| == |order|;
    assert forall i | 0 <= i < |order| :: order[i] in order && Says(parts[i], order[i].value);
    ObjectText(v, order);
    OrderWritten(v, order);
    KeysSaid(order);
    hide Commas, SaysString, KeyLess, SortByKey, Defined, StableStringify, Paired, Keys, Values, Written, DistinctKeysWithin;
  }

  lemma KeysSaid(order: seq<Entry>)
    ensures forall i | 0 <= i < |order| :: SaysString(Keys(order)[i], order[i].key)
  {
    forall i | 0 <= i < |order| ensures SaysString(Keys(order)[i], order[i].key) { QuoteRead(order[i].key); }
    hide SaysString, Quote;
  }

  /** The canonical text of a tree is JSON, and says the tree. */
  lemma {:induction false} TextSaysTree(v: Json)
    requires DistinctKeysWithin(v)
    ensures Says(StableStringify(v), v)
    decreases v
  {
    match v
    case Array(items) =>
      forall i | 0 <= i < |items| ensures Says(StableStringify(items[i]), items[i]) { TextSaysTree(items[i]); }
      ArraySays(v, seq(|items|, i requires 0 <= i < |items| => StableStringify(items[i])));
    case Object(es) =>
      var order := SortByKey(Defined(es));
      EntriesBelow(v);
      SortedElements(es);
      forall e | e in order ensures e.value < v && Says(StableStringify(e.value), e.value) {
        var i :| 0 <= i < |es| && es[i] == e;
        TextSaysTree(e.value);
      }
      ObjectSays(v, order);
    case Str(s) => QuoteRead(s);
    case _ => WordsSpelled();
  }

  // ---- Bytes (section 3 of RFC 3629) -----------------------------------------------------------

  predicate Tail(b: Byte) {
    0x80 <= b <= 0xBF
  }

  /** The bytes are the shortest form of the code point. */
  ghost predicate Encodes(b: seq<Byte>, c: nat) {
    || (|b| == 1 && c <= 0x7F && b[0] == c)
    || (|b| == 2 && 0x80 <= c <= 0x7FF && Tail(b[1]) && c == (b[0] as int - 0xC0) * 64 + (b[1] as int - 0x80))
    || (|b| == 3 && 0x800 <= c <= 0xFFFF && Tail(b[1]) && Tail(b[2]) && c == (b[0] as int - 0xE0) * 4096 + (b[1] as int - 0x80) * 64 + (b[2] as int - 0x80))
    || (|b| == 4 && 0x10000 <= c <= 0x10FFFF && Tail(b[1]) && Tail(b[2]) && Tail(b[3])
        && c == (b[0] as int - 0xF0) * 262144 + (b[1] as int - 0x80) * 4096 + (b[2] as int - 0x80) * 64 + (b[3] as int - 0x80))
  }

  lemma Utf8Encodes(c: nat)
    requires c < 0x110000
    ensures Encodes(Utf8Point(c), c)
  {
    SixBitDigits(c);
  }
}
