/** Canonical JSON: the text whose hash gates every campaign send.

  Strings are sequences of UTF-16 code units, because the key sort of the
  program compares code units (section 3.2.3 of RFC 8785) and because string
  escaping (section 7 of RFC 8259) looks at surrogates one unit at a time.
  A finite number is represented by the text JavaScript renders it as.
 */
module CanonicalJson {

  type CodeUnit = u: nat | u < 0x10000
  type Text = seq<CodeUnit>

  const QUOTE: CodeUnit := 0x22
  const BACKSLASH: CodeUnit := 0x5C
  const COMMA: CodeUnit := 0x2C
  const COLON: CodeUnit := 0x3A
  const OPEN_BRACKET: CodeUnit := 0x5B
  const CLOSE_BRACKET: CodeUnit := 0x5D
  const OPEN_BRACE: CodeUnit := 0x7B
  const CLOSE_BRACE: CodeUnit := 0x7D
  const LOWER_U: CodeUnit := 0x75

  const NULL_TEXT: Text := [0x6E, 0x75, 0x6C, 0x6C]
  const TRUE_TEXT: Text := [0x74, 0x72, 0x75, 0x65]
  const FALSE_TEXT: Text := [0x66, 0x61, 0x6C, 0x73, 0x65]

  /** Digits, sign, point and exponent: every unit of a rendered number. */
  predicate NumberUnit(u: CodeUnit) {
    0x30 <= u <= 0x39 || u == 0x2B || u == 0x2D || u == 0x2E || u == 0x65
  }

  predicate IsNumberText(t: Text) {
    && t != []
    && (0x30 <= t[0] <= 0x39 || t[0] == 0x2D)
    && forall i | 0 <= i < |t| :: NumberUnit(t[i])
  }

  type NumberText = t: Text | IsNumberText(t) witness [0x30]

  /** A JavaScript value tree. Object entries are in insertion order. */
  datatype Json =
    | Undefined
    | Null
    | NonFinite
    | Bool(b: bool)
    | Number(text: NumberText)
    | Str(s: Text)
    | Array(items: seq<Json>)
    | Object(entries: seq<Entry>)

  datatype Entry = Entry(key: Text, value: Json)

  /** What a tree means: objects are unordered collections of named values. */
  datatype Value =
    | VNull
    | VBool(b: bool)
    | VNumber(text: NumberText)
    | VStr(s: Text)
    | VArray(items: seq<Value>)
    | VObject(members: map<Text, Value>)

  predicate DistinctKeys(es: seq<Entry>) {
    forall i, j | 0 <= i < j < |es| :: es[i].key != es[j].key
  }

  /** A JavaScript object never holds the same key twice. */
  predicate DistinctKeysWithin(v: Json) {
    match v
    case Array(items) => forall i | 0 <= i < |items| :: DistinctKeysWithin(items[i])
    case Object(es) => DistinctKeys(es) && forall i | 0 <= i < |es| :: DistinctKeysWithin(es[i].value)
    case _ => true
  }

  function Meaning(v: Json): Value
    decreases v, 1, 0
  {
    match v
    case Undefined => VNull
    case Null => VNull
    case NonFinite => VNull
    case Bool(b) => VBool(b)
    case Number(t) => VNumber(t)
    case Str(s) => VStr(s)
    case Array(items) => VArray(seq(|items|, i requires 0 <= i < |items| => Meaning(items[i])))
    case Object(es) => VObject(MeaningOfEntries(v, es))
  }

  /** The members named by `es`; an undefined value names nothing. */
  function MeaningOfEntries(v: Json, es: seq<Entry>): map<Text, Value>
    requires forall e | e in es :: e.value < v
    decreases v, 0, |es|
  {
    if es == [] then map[]
    else if es[0].value.Undefined? then MeaningOfEntries(v, es[1..])
    else MeaningOfEntries(v, es[1..])[es[0].key := Meaning(es[0].value)]
  }

  // ---- String escaping -------------------------------------------------

  predicate IsHighSurrogate(u: CodeUnit) { 0xD800 <= u <= 0xDBFF }

  predicate IsLowSurrogate(u: CodeUnit) { 0xDC00 <= u <= 0xDFFF }

  function HexDigit(d: nat): CodeUnit
    requires d < 16
  {
    if d < 10 then 0x30 + d else 0x61 + (d - 10)
  }

  function HexEscape(u: CodeUnit): Text {
    [BACKSLASH, LOWER_U, HexDigit(u / 4096), HexDigit(u / 256 % 16), HexDigit(u / 16 % 16), HexDigit(u % 16)]
  }

  /** The letter of a two-unit escape, or 0 when `u` has none. */
  function ShortEscape(u: CodeUnit): CodeUnit {
    if u == 0x08 then 0x62
    else if u == 0x09 then 0x74
    else if u == 0x0A then 0x6E
    else if u == 0x0C then 0x66
    else if u == 0x0D then 0x72
    else if u == QUOTE then QUOTE
    else if u == BACKSLASH then BACKSLASH
    else 0
  }

  function EscapeUnit(u: CodeUnit): Text {
    if ShortEscape(u) != 0 then [BACKSLASH, ShortEscape(u)]
    else if u < 0x20 || IsHighSurrogate(u) || IsLowSurrogate(u) then HexEscape(u)
    else [u]
  }

  predicate StartsWithPair(s: Text) {
    |s| >= 2 && IsHighSurrogate(s[0]) && IsLowSurrogate(s[1])
  }

  /** How many leading units are escaped together: a surrogate pair, or one. */
  function ChunkLength(s: Text): (n: nat)
    requires s != []
    ensures 1 <= n <= |s|
  {
    if StartsWithPair(s) then 2 else 1
  }

  function EscapeChunk(s: Text): Text
    requires s != []
  {
    if StartsWithPair(s) then s[..2] else EscapeUnit(s[0])
  }

  /** The escaped units of `s` and the closing quote. */
  function QuoteBody(s: Text): Text {
    if s == [] then [QUOTE] else EscapeChunk(s) + QuoteBody(s[ChunkLength(s)..])
  }

  function Quote(s: Text): Text {
    [QUOTE] + QuoteBody(s)
  }

  // ---- Key order -------------------------------------------------------

  /** Code-unit order, the `<` of JavaScript strings. */
  predicate KeyLess(a: Text, b: Text) {
    b != [] && (a == [] || a[0] < b[0] || (a[0] == b[0] && KeyLess(a[1..], b[1..])))
  }

  /** At place `k` the texts part: `a` ends there, or has the smaller unit. */
  predicate PartsLess(a: Text, b: Text, k: nat) {
    && k <= |a| && k < |b| && a[..k] == b[..k]
    && (k == |a| || a[k] < b[k])
  }

  /** The first place at which two texts differ decides their order. */
  lemma {:induction false} KeyLessDecides(a: Text, b: Text)
    ensures KeyLess(a, b) <==> exists k: nat :: PartsLess(a, b, k)
    decreases |a|
  {
    forall k: nat | PartsLess(a, b, k) && k > 0 ensures a != [] && b != [] && a[0] == b[0] {
      assert a[..k][0] == b[..k][0];
    }
    if a == [] || b == [] || a[0] != b[0] {
      if KeyLess(a, b) { assert PartsLess(a, b, 0); }
    } else {
      KeyLessDecides(a[1..], b[1..]);
      forall k: nat | PartsLess(a[1..], b[1..], k) ensures PartsLess(a, b, k + 1) {
        assert a[..k + 1] == [a[0]] + a[1..][..k] && b[..k + 1] == [b[0]] + b[1..][..k];
      }
      forall k: nat | PartsLess(a, b, k) ensures k > 0 && PartsLess(a[1..], b[1..], k - 1) {
        if k > 0 { assert a[1..][..k - 1] == a[..k][1..] && b[1..][..k - 1] == b[..k][1..]; }
      }
    }
  }

  function Defined(es: seq<Entry>): (r: seq<Entry>)
    ensures forall e :: e in r <==> e in es && !e.value.Undefined?
  {
    if es == [] then []
    else if es[0].value.Undefined? then Defined(es[1..])
    else [es[0]] + Defined(es[1..])
  }

  function InsertByKey(e: Entry, es: seq<Entry>): (r: seq<Entry>)
    ensures multiset(r) == multiset(es) + multiset{e}
  {
    if es == [] || KeyLess(e.key, es[0].key) then [e] + es
    else
      assert es == [es[0]] + es[1..];
      [es[0]] + InsertByKey(e, es[1..])
  }

  function SortByKey(es: seq<Entry>): (r: seq<Entry>)
    ensures multiset(r) == multiset(es)
  {
    if es == [] then []
    else
      assert es == [es[0]] + es[1..];
      InsertByKey(es[0], SortByKey(es[1..]))
  }

  // ---- Serialisation ---------------------------------------------------

  lemma EntriesBelow(v: Json)
    requires v.Object?
    ensures forall e | e in SortByKey(Defined(v.entries)) :: e.value < v
  {
    forall e | e in SortByKey(Defined(v.entries)) ensures e.value < v {
      assert e in multiset(SortByKey(Defined(v.entries)));
      assert e in Defined(v.entries);
      var i :| 0 <= i < |v.entries| && v.entries[i] == e;
    }
  }

  function StableStringify(v: Json): Text
    decreases v, 1, 0
  {
    match v
    case Undefined => NULL_TEXT
    case Null => NULL_TEXT
    case NonFinite => NULL_TEXT
    case Bool(b) => if b then TRUE_TEXT else FALSE_TEXT
    case Number(t) => t
    case Str(s) => Quote(s)
    case Array(items) => [OPEN_BRACKET] + JoinItems(v, items) + [CLOSE_BRACKET]
    case Object(es) =>
      EntriesBelow(v);
      [OPEN_BRACE] + JoinMembers(v, SortByKey(Defined(es))) + [CLOSE_BRACE]
  }

  function JoinItems(v: Json, items: seq<Json>): Text
    requires forall i | 0 <= i < |items| :: items[i] < v
    decreases v, 0, |items|
  {
    if items == [] then []
    else if |items| == 1 then StableStringify(items[0])
    else StableStringify(items[0]) + [COMMA] + JoinItems(v, items[1..])
  }

  function Member(v: Json, e: Entry): Text
    requires e.value < v
    decreases v, 0, 0
  {
    Quote(e.key) + [COLON] + StableStringify(e.value)
  }

  function JoinMembers(v: Json, es: seq<Entry>): Text
    requires forall e | e in es :: e.value < v
    decreases v, 0, |es| + 1
  {
    if es == [] then []
    else if |es| == 1 then Member(v, es[0])
    else Member(v, es[0]) + [COMMA] + JoinMembers(v, es[1..])
  }

  // ---- Strings are self-delimiting ---------------------------------------

  lemma {:induction false} HexEscapeInjective(a: CodeUnit, b: CodeUnit)
    requires HexEscape(a) == HexEscape(b)
    ensures a == b
  {
    assert HexEscape(a)[2] == HexEscape(b)[2] && HexEscape(a)[3] == HexEscape(b)[3];
    assert HexEscape(a)[4] == HexEscape(b)[4] && HexEscape(a)[5] == HexEscape(b)[5];
    HexValue(a);
    HexValue(b);
  }

  lemma HexValue(u: CodeUnit)
    ensures u == u / 4096 * 4096 + u / 256 % 16 * 256 + u / 16 % 16 * 16 + u % 16
  {
    assert u / 256 == u / 4096 * 16 + u / 256 % 16;
    assert u / 16 == u / 256 * 16 + u / 16 % 16;
  }

  /** The first unit tells an escape from a literal unit and from the end. */
  lemma EscapeUnitHead(u: CodeUnit)
    ensures EscapeUnit(u) != []
    ensures EscapeUnit(u)[0] == BACKSLASH || (EscapeUnit(u) == [u] && u != QUOTE && !IsHighSurrogate(u))
  {
  }

  lemma SamePrefixLength(p: Text, q: Text, x: Text, y: Text)
    requires p + x == q + y && |p| == |q|
    ensures p == q && x == y
  {
    assert p == (p + x)[..|p|] && q == (q + y)[..|q|];
    assert x == (p + x)[|p|..] && y == (q + y)[|q|..];
  }

  lemma Regroup(p: Text, q: Text, x: Text)
    ensures p + q + x == p + (q + x)
  {
  }

  lemma {:induction false} EscapeUnitUnique(u: CodeUnit, w: CodeUnit, x: Text, y: Text)
    requires EscapeUnit(u) + x == EscapeUnit(w) + y
    ensures u == w && x == y
  {
    var l, r := EscapeUnit(u) + x, EscapeUnit(w) + y;
    assert l[0] == EscapeUnit(u)[0] && r[0] == EscapeUnit(w)[0];
    if |EscapeUnit(u)| > 1 && |EscapeUnit(w)| > 1 {
      assert l[1] == EscapeUnit(u)[1] && r[1] == EscapeUnit(w)[1];
    }
    SamePrefixLength(EscapeUnit(u), EscapeUnit(w), x, y);
    if |EscapeUnit(u)| == 6 {
      HexEscapeInjective(u, w);
    }
  }

  lemma EscapeChunkHead(s: Text)
    requires s != []
    ensures EscapeChunk(s) != [] && EscapeChunk(s)[0] != QUOTE
    ensures IsHighSurrogate(EscapeChunk(s)[0]) <==> StartsWithPair(s)
  {
    EscapeUnitHead(s[0]);
  }

  lemma {:induction false} EscapeChunkUnique(s: Text, t: Text, x: Text, y: Text)
    requires s != [] && t != []
    requires EscapeChunk(s) + x == EscapeChunk(t) + y
    ensures ChunkLength(s) == ChunkLength(t)
    ensures s[..ChunkLength(s)] == t[..ChunkLength(t)] && x == y
  {
    EscapeChunkHead(s);
    EscapeChunkHead(t);
    assert (EscapeChunk(s) + x)[0] == EscapeChunk(s)[0];
    assert (EscapeChunk(t) + y)[0] == EscapeChunk(t)[0];
    if StartsWithPair(s) {
      SamePrefixLength(s[..2], t[..2], x, y);
    } else {
      EscapeUnitUnique(s[0], t[0], x, y);
    }
  }

  lemma {:induction false} QuoteBodyUnique(s: Text, t: Text, x: Text, y: Text)
    requires QuoteBody(s) + x == QuoteBody(t) + y
    ensures s == t && x == y
    decreases |s|
  {
    QuoteBodyHead(s);
    QuoteBodyHead(t);
    assert (QuoteBody(s) + x)[0] == QuoteBody(s)[0];
    assert (QuoteBody(t) + y)[0] == QuoteBody(t)[0];
    if s == [] {
      SamePrefixLength([QUOTE], [QUOTE], x, y);
    } else {
      var m, n := ChunkLength(s), ChunkLength(t);
      Regroup(EscapeChunk(s), QuoteBody(s[m..]), x);
      Regroup(EscapeChunk(t), QuoteBody(t[n..]), y);
      EscapeChunkUnique(s, t, QuoteBody(s[m..]) + x, QuoteBody(t[n..]) + y);
      QuoteBodyUnique(s[m..], t[n..], x, y);
      SplitAgain(s, t, m);
    }
  }

  lemma SplitAgain(s: Text, t: Text, n: nat)
    requires n <= |s| && n <= |t| && s[..n] == t[..n] && s[n..] == t[n..]
    ensures s == t
  {
    assert s == s[..n] + s[n..] && t == t[..n] + t[n..];
  }

  lemma QuoteBodyHead(s: Text)
    ensures QuoteBody(s) != []
    ensures QuoteBody(s)[0] == QUOTE <==> s == []
  {
    if s != [] { EscapeChunkHead(s); }
  }

  lemma {:induction false} QuoteUnique(s: Text, t: Text, x: Text, y: Text)
    requires Quote(s) + x == Quote(t) + y
    ensures s == t && x == y
  {
    Regroup([QUOTE], QuoteBody(s), x);
    Regroup([QUOTE], QuoteBody(t), y);
    SamePrefixLength([QUOTE], [QUOTE], QuoteBody(s) + x, QuoteBody(t) + y);
    QuoteBodyUnique(s, t, x, y);
  }

  // ---- Values are self-delimiting before a separator ---------------------

  /** What can follow a value: the end of the text, a comma or a closer. */
  predicate AtSeparator(x: Text) {
    x == [] || x[0] == COMMA || x[0] == CLOSE_BRACKET || x[0] == CLOSE_BRACE
  }

  function LeadingNumberUnits(t: Text): nat {
    if t == [] || !NumberUnit(t[0]) then 0 else 1 + LeadingNumberUnits(t[1..])
  }

  lemma {:induction false} NumberEndsAtSeparator(s: Text, x: Text)
    requires (forall i | 0 <= i < |s| :: NumberUnit(s[i])) && AtSeparator(x)
    ensures LeadingNumberUnits(s + x) == |s|
  {
    if s == [] {
      assert s + x == x;
    } else {
      assert (s + x)[1..] == s[1..] + x;
      NumberEndsAtSeparator(s[1..], x);
    }
  }

  lemma NumberUnique(s: NumberText, t: NumberText, x: Text, y: Text)
    requires s + x == t + y && AtSeparator(x) && AtSeparator(y)
    ensures s == t && x == y
  {
    NumberEndsAtSeparator(s, x);
    NumberEndsAtSeparator(t, y);
    SamePrefixLength(s, t, x, y);
  }

  /** The first unit of a text names the kind of value it holds. */
  predicate HeadOf(v: Json, u: CodeUnit) {
    match v
    case Undefined => u == 0x6E
    case Null => u == 0x6E
    case NonFinite => u == 0x6E
    case Bool(b) => u == if b then 0x74 else 0x66
    case Number(_) => NumberUnit(u) && u != 0x65
    case Str(_) => u == QUOTE
    case Array(_) => u == OPEN_BRACKET
    case Object(_) => u == OPEN_BRACE
  }

  lemma StringifyHead(v: Json)
    ensures StableStringify(v) != [] && HeadOf(v, StableStringify(v)[0])
  {
    if v.Object? { EntriesBelow(v); }
  }

  lemma {:induction false} StringifyUnique(a: Json, b: Json, x: Text, y: Text)
    requires StableStringify(a) + x == StableStringify(b) + y
    requires AtSeparator(x) && AtSeparator(y)
    requires DistinctKeysWithin(a) && DistinctKeysWithin(b)
    ensures Meaning(a) == Meaning(b) && x == y
    decreases a, 2, 0
  {
    StringifyHead(a);
    StringifyHead(b);
    assert (StableStringify(a) + x)[0] == StableStringify(a)[0];
    assert (StableStringify(b) + y)[0] == StableStringify(b)[0];
    match a
    case Str(s) => QuoteUnique(s, b.s, x, y);
    case Number(t) => NumberUnique(t, b.text, x, y);
    case Array(_) => ArrayUnique(a, b, x, y);
    case Object(_) => ObjectUnique(a, b, x, y);
    case _ => SamePrefixLength(StableStringify(a), StableStringify(b), x, y);
  }

  lemma ArrayText(v: Json, x: Text)
    requires v.Array?
    ensures StableStringify(v) + x == [OPEN_BRACKET] + (JoinItems(v, v.items) + [CLOSE_BRACKET] + x)
  {
  }

  lemma {:induction false} ArrayUnique(a: Json, b: Json, x: Text, y: Text)
    requires a.Array? && b.Array?
    requires StableStringify(a) + x == StableStringify(b) + y
    requires DistinctKeysWithin(a) && DistinctKeysWithin(b)
    ensures Meaning(a) == Meaning(b) && x == y
    decreases a, 1, 0
  {
    ArrayText(a, x);
    ArrayText(b, y);
    SamePrefixLength([OPEN_BRACKET], [OPEN_BRACKET],
                     JoinItems(a, a.items) + [CLOSE_BRACKET] + x, JoinItems(b, b.items) + [CLOSE_BRACKET] + y);
    JoinItemsUnique(a, a.items, b, b.items, x, y);
    assert Meaning(a).items == Meaning(b).items;
  }

  lemma ObjectText(v: Json, x: Text)
    requires v.Object? && EntriesWithin(v, SortByKey(Defined(v.entries)))
    ensures StableStringify(v) + x == [OPEN_BRACE] + (JoinMembers(v, SortByKey(Defined(v.entries))) + [CLOSE_BRACE] + x)
  {
  }

  lemma {:induction false} ObjectUnique(a: Json, b: Json, x: Text, y: Text)
    requires a.Object? && b.Object?
    requires StableStringify(a) + x == StableStringify(b) + y
    requires DistinctKeysWithin(a) && DistinctKeysWithin(b)
    ensures Meaning(a) == Meaning(b) && x == y
    decreases a, 1, 0
  {
    SortedEntries(a);
    SortedEntries(b);
    var ea, eb := SortByKey(Defined(a.entries)), SortByKey(Defined(b.entries));
    ObjectText(a, x);
    ObjectText(b, y);
    SamePrefixLength([OPEN_BRACE], [OPEN_BRACE], JoinMembers(a, ea) + [CLOSE_BRACE] + x, JoinMembers(b, eb) + [CLOSE_BRACE] + y);
    JoinMembersUnique(a, ea, b, eb, x, y);
    MeaningOfSameEntries(a, ea, b, eb);
  }

  /** What follows the first item when `x` follows the closed array. */
  function AfterItem(v: Json, items: seq<Json>, x: Text): Text
    requires items != []
    requires forall i | 0 <= i < |items| :: items[i] < v
  {
    if |items| == 1 then [CLOSE_BRACKET] + x else [COMMA] + (JoinItems(v, items[1..]) + [CLOSE_BRACKET] + x)
  }

  lemma JoinItemsStep(v: Json, items: seq<Json>, x: Text)
    requires items != []
    requires forall i | 0 <= i < |items| :: items[i] < v
    ensures JoinItems(v, items) + [CLOSE_BRACKET] + x == StableStringify(items[0]) + AfterItem(v, items, x)
  {
  }

  lemma JoinItemsHead(v: Json, items: seq<Json>, x: Text)
    requires forall i | 0 <= i < |items| :: items[i] < v
    ensures (JoinItems(v, items) + [CLOSE_BRACKET] + x)[0] == CLOSE_BRACKET <==> items == []
  {
    if items != [] {
      JoinItemsStep(v, items, x);
      StringifyHead(items[0]);
      assert (StableStringify(items[0]) + AfterItem(v, items, x))[0] == StableStringify(items[0])[0];
    }
  }

  lemma {:induction false} JoinItemsUnique(a: Json, ia: seq<Json>, b: Json, ib: seq<Json>, x: Text, y: Text)
    requires forall i | 0 <= i < |ia| :: ia[i] < a && DistinctKeysWithin(ia[i])
    requires forall i | 0 <= i < |ib| :: ib[i] < b && DistinctKeysWithin(ib[i])
    requires JoinItems(a, ia) + [CLOSE_BRACKET] + x == JoinItems(b, ib) + [CLOSE_BRACKET] + y
    ensures |ia| == |ib| && x == y
    ensures forall i | 0 <= i < |ia| :: Meaning(ia[i]) == Meaning(ib[i])
    decreases a, 0, |ia|
  {
    JoinItemsHead(a, ia, x);
    JoinItemsHead(b, ib, y);
    if ia == [] {
      assert JoinItems(a, ia) + [CLOSE_BRACKET] == [CLOSE_BRACKET] == JoinItems(b, ib) + [CLOSE_BRACKET];
      SamePrefixLength([CLOSE_BRACKET], [CLOSE_BRACKET], x, y);
    } else {
      var restA, restB := AfterItem(a, ia, x), AfterItem(b, ib, y);
      JoinItemsStep(a, ia, x);
      JoinItemsStep(b, ib, y);
      StringifyUnique(ia[0], ib[0], restA, restB);
      assert restA[1..] == restB[1..];
      if |ia| == 1 {
        assert x == restA[1..] && y == restB[1..];
      } else {
        JoinItemsUnique(a, ia[1..], b, ib[1..], x, y);
        forall i | 0 < i < |ia| ensures Meaning(ia[i]) == Meaning(ib[i]) {
          assert Meaning(ia[1..][i - 1]) == Meaning(ib[1..][i - 1]);
        }
      }
    }
  }

  lemma MemberText(v: Json, e: Entry, x: Text)
    requires e.value < v
    ensures Member(v, e) + x == Quote(e.key) + ([COLON] + (StableStringify(e.value) + x))
  {
  }

  lemma {:induction false} MemberUnique(a: Json, e: Entry, b: Json, f: Entry, x: Text, y: Text)
    requires e.value < a && f.value < b
    requires DistinctKeysWithin(e.value) && DistinctKeysWithin(f.value)
    requires Member(a, e) + x == Member(b, f) + y
    requires AtSeparator(x) && AtSeparator(y)
    ensures e.key == f.key && Meaning(e.value) == Meaning(f.value) && x == y
    decreases a, 0, 0
  {
    var valueA, valueB := StableStringify(e.value) + x, StableStringify(f.value) + y;
    MemberText(a, e, x);
    MemberText(b, f, y);
    QuoteUnique(e.key, f.key, [COLON] + valueA, [COLON] + valueB);
    SamePrefixLength([COLON], [COLON], valueA, valueB);
    StringifyUnique(e.value, f.value, x, y);
  }

  ghost predicate EntriesWithin(v: Json, es: seq<Entry>) {
    forall e | e in es :: e.value < v && !e.value.Undefined? && DistinctKeysWithin(e.value)
  }

  /** What follows the first member when `x` follows the closed object. */
  ghost function AfterMember(v: Json, es: seq<Entry>, x: Text): Text
    requires es != [] && EntriesWithin(v, es)
  {
    if |es| == 1 then [CLOSE_BRACE] + x else [COMMA] + (JoinMembers(v, es[1..]) + [CLOSE_BRACE] + x)
  }

  lemma JoinMembersStep(v: Json, es: seq<Entry>, x: Text)
    requires es != [] && EntriesWithin(v, es)
    ensures JoinMembers(v, es) + [CLOSE_BRACE] + x == Member(v, es[0]) + AfterMember(v, es, x)
  {
    hide Member, EntriesWithin;
  }

  lemma JoinMembersHead(v: Json, es: seq<Entry>, x: Text)
    requires EntriesWithin(v, es)
    ensures (JoinMembers(v, es) + [CLOSE_BRACE] + x)[0] == CLOSE_BRACE <==> es == []
  {
    if es != [] {
      JoinMembersStep(v, es, x);
      assert Member(v, es[0])[0] == QUOTE;
    }
  }

  lemma {:induction false} JoinMembersUnique(a: Json, ea: seq<Entry>, b: Json, eb: seq<Entry>, x: Text, y: Text)
    requires EntriesWithin(a, ea) && EntriesWithin(b, eb)
    requires JoinMembers(a, ea) + [CLOSE_BRACE] + x == JoinMembers(b, eb) + [CLOSE_BRACE] + y
    ensures |ea| == |eb| && x == y
    ensures forall i | 0 <= i < |ea| :: ea[i].key == eb[i].key && Meaning(ea[i].value) == Meaning(eb[i].value)
    decreases a, 0, |ea| + 1
  {
    JoinMembersHead(a, ea, x);
    JoinMembersHead(b, eb, y);
    if ea == [] {
      assert JoinMembers(a, ea) + [CLOSE_BRACE] == [CLOSE_BRACE] == JoinMembers(b, eb) + [CLOSE_BRACE];
      SamePrefixLength([CLOSE_BRACE], [CLOSE_BRACE], x, y);
    } else {
      var restA, restB := AfterMember(a, ea, x), AfterMember(b, eb, y);
      JoinMembersStep(a, ea, x);
      JoinMembersStep(b, eb, y);
      MemberUnique(a, ea[0], b, eb[0], restA, restB);
      assert restA[1..] == restB[1..];
      if |ea| == 1 {
        assert x == restA[1..] && y == restB[1..];
      } else {
        JoinMembersUnique(a, ea[1..], b, eb[1..], x, y);
        forall i | 0 < i < |ea|
          ensures ea[i].key == eb[i].key && Meaning(ea[i].value) == Meaning(eb[i].value)
        {
          assert ea[1..][i - 1].key == eb[1..][i - 1].key;
        }
      }
    }
  }

  lemma {:induction false} MeaningOfSameEntries(a: Json, ea: seq<Entry>, b: Json, eb: seq<Entry>)
    requires EntriesWithin(a, ea) && EntriesWithin(b, eb)
    requires |ea| == |eb|
    requires forall i | 0 <= i < |ea| :: ea[i].key == eb[i].key && Meaning(ea[i].value) == Meaning(eb[i].value)
    ensures MeaningOfEntries(a, ea) == MeaningOfEntries(b, eb)
    decreases |ea|
  {
    if ea != [] {
      MeaningOfSameEntries(a, ea[1..], b, eb[1..]);
    }
  }

  // ---- The key sort ------------------------------------------------------

  lemma {:induction false} KeyLessTrichotomy(a: Text, b: Text)
    ensures KeyLess(a, b) || KeyLess(b, a) || a == b
    ensures !(KeyLess(a, b) && KeyLess(b, a))
    decreases |a|
  {
    if a != [] && b != [] {
      KeyLessTrichotomy(a[1..], b[1..]);
      assert a == [a[0]] + a[1..] && b == [b[0]] + b[1..];
    }
  }

  lemma {:induction false} KeyLessTransitive(a: Text, b: Text, c: Text)
    requires KeyLess(a, b) && KeyLess(b, c)
    ensures KeyLess(a, c)
    decreases |a|
  {
    if a != [] && a[0] == b[0] == c[0] {
      KeyLessTransitive(a[1..], b[1..], c[1..]);
    }
  }

  predicate Ascending(es: seq<Entry>) {
    forall i, j | 0 <= i < j < |es| :: KeyLess(es[i].key, es[j].key)
  }

  lemma {:induction false} InsertByKeyAscending(e: Entry, es: seq<Entry>)
    requires Ascending(es)
    requires forall i | 0 <= i < |es| :: es[i].key != e.key
    ensures Ascending(InsertByKey(e, es))
    decreases |es|
  {
    var r := InsertByKey(e, es);
    if es == [] {
    } else if KeyLess(e.key, es[0].key) {
      forall j | 0 < j < |es| ensures KeyLess(e.key, es[j].key) {
        KeyLessTransitive(e.key, es[0].key, es[j].key);
      }
    } else {
      var rest := InsertByKey(e, es[1..]);
      InsertByKeyAscending(e, es[1..]);
      KeyLessTrichotomy(e.key, es[0].key);
      forall j | 0 <= j < |rest| ensures KeyLess(es[0].key, rest[j].key) {
        assert rest[j] in multiset(rest);
        assert rest[j] == e || rest[j] in es[1..];
      }
    }
  }

  lemma {:induction false} SortByKeyAscending(es: seq<Entry>)
    requires DistinctKeys(es)
    ensures Ascending(SortByKey(es))
    decreases |es|
  {
    if es != [] {
      SortByKeyAscending(es[1..]);
      var rest := SortByKey(es[1..]);
      forall j | 0 <= j < |rest| ensures rest[j].key != es[0].key {
        assert rest[j] in multiset(rest);
        assert rest[j] in es[1..];
      }
      InsertByKeyAscending(es[0], rest);
    }
  }

  lemma {:induction false} DefinedDistinct(es: seq<Entry>)
    requires DistinctKeys(es)
    ensures DistinctKeys(Defined(es))
    decreases |es|
  {
    if es != [] {
      DefinedDistinct(es[1..]);
      forall j | 0 <= j < |Defined(es[1..])| ensures Defined(es[1..])[j].key != es[0].key {
        assert Defined(es[1..])[j] in es[1..];
      }
    }
  }

  lemma AscendingDistinct(es: seq<Entry>)
    requires Ascending(es)
    ensures DistinctKeys(es)
  {
    forall i, j | 0 <= i < j < |es| ensures es[i].key != es[j].key {
      KeyLessTrichotomy(es[i].key, es[j].key);
    }
  }

  /** With distinct keys a list of entries means the map of its defined ones. */
  lemma {:induction false} MeaningOfEntriesMembers(v: Json, es: seq<Entry>)
    requires forall e | e in es :: e.value < v
    requires DistinctKeys(es)
    ensures forall e | e in es && !e.value.Undefined? ::
              e.key in MeaningOfEntries(v, es) && MeaningOfEntries(v, es)[e.key] == Meaning(e.value)
    ensures forall k | k in MeaningOfEntries(v, es) :: exists e :: e in es && !e.value.Undefined? && e.key == k
    decreases |es|
  {
    if es != [] {
      var rest := es[1..];
      MeaningOfEntriesMembers(v, rest);
      forall e | e in es && !e.value.Undefined?
        ensures e.key in MeaningOfEntries(v, es) && MeaningOfEntries(v, es)[e.key] == Meaning(e.value)
      {
        if e != es[0] {
          assert e in rest;
        } else {
          assert es[0].key in MeaningOfEntries(v, es);
        }
      }
      forall k | k in MeaningOfEntries(v, es) ensures exists e :: e in es && !e.value.Undefined? && e.key == k {
        if k in MeaningOfEntries(v, rest) {
          var e :| e in rest && !e.value.Undefined? && e.key == k;
          assert e in es;
        } else {
          assert es[0] in es;
        }
      }
    }
  }

  /** With distinct keys, the meaning depends only on which defined entries there are. */
  lemma {:induction false} SameElementsSameMeaning(v: Json, es: seq<Entry>, fs: seq<Entry>)
    requires forall e | e in es :: e.value < v
    requires forall e | e in fs :: e.value < v
    requires DistinctKeys(es) && DistinctKeys(fs)
    requires forall e :: e in es && !e.value.Undefined? <==> e in fs && !e.value.Undefined?
    ensures MeaningOfEntries(v, es) == MeaningOfEntries(v, fs)
  {
    MeaningOfEntriesMembers(v, es);
    MeaningOfEntriesMembers(v, fs);
    var m, n := MeaningOfEntries(v, es), MeaningOfEntries(v, fs);
    forall k | k in m ensures k in n && m[k] == n[k] {
      var e :| e in es && !e.value.Undefined? && e.key == k;
      assert e in fs && !e.value.Undefined?;
    }
    forall k | k in n ensures k in m {
      var e :| e in fs && !e.value.Undefined? && e.key == k;
      assert e in es && !e.value.Undefined?;
    }
  }

  lemma {:induction false} SortedElements(es: seq<Entry>)
    requires DistinctKeys(es)
    ensures Ascending(SortByKey(Defined(es)))
    ensures forall e :: e in SortByKey(Defined(es)) <==> e in es && !e.value.Undefined?
  {
    DefinedDistinct(es);
    SortByKeyAscending(Defined(es));
    forall e ensures e in SortByKey(Defined(es)) <==> e in Defined(es) {
      assert e in SortByKey(Defined(es)) <==> e in multiset(SortByKey(Defined(es)));
      assert e in Defined(es) <==> e in multiset(Defined(es));
    }
  }

  /** Dropping undefined entries and sorting by key keeps the meaning. */
  lemma {:induction false} SortedEntries(v: Json)
    requires v.Object? && DistinctKeysWithin(v)
    ensures var es := SortByKey(Defined(v.entries));
            && Ascending(es)
            && EntriesWithin(v, es)
            && MeaningOfEntries(v, es) == MeaningOfEntries(v, v.entries)
  {
    EntriesBelow(v);
    SortedElements(v.entries);
    AscendingDistinct(SortByKey(Defined(v.entries)));
    forall e | e in v.entries ensures e.value < v && DistinctKeysWithin(e.value) {
      var i :| 0 <= i < |v.entries| && v.entries[i] == e;
    }
    SameElementsSameMeaning(v, SortByKey(Defined(v.entries)), v.entries);
  }

  // ---- Same meaning, same text -------------------------------------------

  lemma {:induction false} SameMeaningSameText(a: Json, b: Json)
    requires DistinctKeysWithin(a) && DistinctKeysWithin(b)
    requires Meaning(a) == Meaning(b)
    ensures StableStringify(a) == StableStringify(b)
    decreases a, 1, 0
  {
    match a
    case Array(items) =>
      assert |items| == |Meaning(a).items| == |b.items|;
      forall i | 0 <= i < |items| ensures Meaning(items[i]) == Meaning(b.items[i]) {
        assert Meaning(a).items[i] == Meaning(b).items[i];
      }
      SameItemsSameText(a, items, b, b.items);
    case Object(es) =>
      EntriesBelow(a);
      EntriesBelow(b);
      SortedEntries(a);
      SortedEntries(b);
      SameMembersSameText(a, SortByKey(Defined(es)), b, SortByKey(Defined(b.entries)));
    case _ =>
  }

  lemma {:induction false} SameItemsSameText(a: Json, ia: seq<Json>, b: Json, ib: seq<Json>)
    requires forall i | 0 <= i < |ia| :: ia[i] < a && DistinctKeysWithin(ia[i])
    requires forall i | 0 <= i < |ib| :: ib[i] < b && DistinctKeysWithin(ib[i])
    requires |ia| == |ib| && forall i | 0 <= i < |ia| :: Meaning(ia[i]) == Meaning(ib[i])
    ensures JoinItems(a, ia) == JoinItems(b, ib)
    decreases a, 0, |ia|
  {
    if ia != [] {
      SameMeaningSameText(ia[0], ib[0]);
      SameItemsSameText(a, ia[1..], b, ib[1..]);
    }
  }

  lemma {:induction false} SameMembersSameText(a: Json, ea: seq<Entry>, b: Json, eb: seq<Entry>)
    requires EntriesWithin(a, ea) && EntriesWithin(b, eb)
    requires Ascending(ea) && Ascending(eb)
    requires MeaningOfEntries(a, ea) == MeaningOfEntries(b, eb)
    ensures JoinMembers(a, ea) == JoinMembers(b, eb)
    decreases a, 0, |ea|
  {
    hide Meaning, MeaningOfEntries, StableStringify, KeyLess, DistinctKeysWithin, Quote;
    MeaningEmpty(a, ea);
    MeaningEmpty(b, eb);
    if ea != [] {
      LeastKeySame(a, ea, b, eb);
      SameMeaningSameText(ea[0].value, eb[0].value);
      assert Member(a, ea[0]) == Member(b, eb[0]);
      MeaningWithoutFirst(a, ea);
      MeaningWithoutFirst(b, eb);
      MeaningEmpty(a, ea[1..]);
      MeaningEmpty(b, eb[1..]);
      SameMembersSameText(a, ea[1..], b, eb[1..]);
    }
  }

  lemma LeastKeySame(a: Json, ea: seq<Entry>, b: Json, eb: seq<Entry>)
    requires EntriesWithin(a, ea) && EntriesWithin(b, eb)
    requires Ascending(ea) && Ascending(eb) && ea != [] && eb != []
    requires MeaningOfEntries(a, ea) == MeaningOfEntries(b, eb)
    ensures ea[0].key == eb[0].key && Meaning(ea[0].value) == Meaning(eb[0].value)
  {
    AscendingDistinct(ea);
    AscendingDistinct(eb);
    MeaningOfEntriesMembers(a, ea);
    MeaningOfEntriesMembers(b, eb);
    assert ea[0] in ea && eb[0] in eb;
    var e :| e in ea && !e.value.Undefined? && e.key == eb[0].key;
    var f :| f in eb && !f.value.Undefined? && f.key == ea[0].key;
    KeyLessTrichotomy(ea[0].key, eb[0].key);
  }

  lemma MeaningEmpty(v: Json, es: seq<Entry>)
    requires EntriesWithin(v, es)
    ensures MeaningOfEntries(v, es) == map[] <==> es == []
  {
    if es != [] {
      assert es[0] in es;
      assert es[0].key in MeaningOfEntries(v, es);
    }
  }

  lemma FirstKeyOnlyFirst(v: Json, es: seq<Entry>)
    requires EntriesWithin(v, es) && Ascending(es) && es != []
    ensures es[0].key !in MeaningOfEntries(v, es[1..])
  {
    AscendingDistinct(es);
    var rest := es[1..];
    MeaningOfEntriesMembers(v, rest);
    forall k | k in MeaningOfEntries(v, rest) ensures k != es[0].key {
      var e :| e in rest && e.key == k;
    }
  }

  lemma MeaningWithoutFirst(v: Json, es: seq<Entry>)
    requires EntriesWithin(v, es) && Ascending(es) && es != []
    ensures MeaningOfEntries(v, es[1..]) == MeaningOfEntries(v, es) - {es[0].key}
  {
    FirstKeyOnlyFirst(v, es);
    assert es[0] in es;
    var m := MeaningOfEntries(v, es[1..]);
    assert m[es[0].key := Meaning(es[0].value)] - {es[0].key} == m;
  }

  /** Two trees have one text exactly when they mean the same value. */
  lemma CanonicalText(a: Json, b: Json)
    requires DistinctKeysWithin(a) && DistinctKeysWithin(b)
    ensures StableStringify(a) == StableStringify(b) <==> Meaning(a) == Meaning(b)
  {
    if StableStringify(a) == StableStringify(b) {
      assert StableStringify(a) + [] == StableStringify(b) + [];
      StringifyUnique(a, b, [], []);
    }
    if Meaning(a) == Meaning(b) {
      SameMeaningSameText(a, b);
    }
  }

  // ---- The bytes that are hashed -----------------------------------------

  type Byte = b: nat | b < 256

  /** Every surrogate is half of a pair. */
  predicate WellFormed(t: Text) {
    if t == [] then true
    else if StartsWithPair(t) then WellFormed(t[2..])
    else !IsHighSurrogate(t[0]) && !IsLowSurrogate(t[0]) && WellFormed(t[1..])
  }

  /** The code point the text starts with; a lone surrogate reads as U+FFFD. */
  function CodePoint(t: Text): (c: nat)
    requires t != []
    ensures c < 0x110000
  {
    if StartsWithPair(t) then 0x10000 + (t[0] as int - 0xD800) * 0x400 + (t[1] as int - 0xDC00)
    else if IsHighSurrogate(t[0]) || IsLowSurrogate(t[0]) then 0xFFFD
    else t[0]
  }

  function Utf8Point(c: nat): seq<Byte>
    requires c < 0x110000
  {
    if c < 0x80 then [c]
    else if c < 0x800 then [0xC0 + c / 64, 0x80 + c % 64]
    else if c < 0x10000 then [0xE0 + c / 4096, 0x80 + c / 64 % 64, 0x80 + c % 64]
    else [0xF0 + c / 262144, 0x80 + c / 4096 % 64, 0x80 + c / 64 % 64, 0x80 + c % 64]
  }

  function Utf8(t: Text): seq<Byte> {
    if t == [] then [] else Utf8Point(CodePoint(t)) + Utf8(t[ChunkLength(t)..])
  }

  lemma {:induction false} WellFormedConcat(s: Text, t: Text)
    requires WellFormed(s) && WellFormed(t)
    ensures WellFormed(s + t)
    decreases |s|
  {
    if s == [] {
      assert s + t == t;
    } else {
      var n := ChunkLength(s);
      assert (s + t)[n..] == s[n..] + t;
      WellFormedConcat(s[n..], t);
    }
  }

  lemma {:induction false} PlainIsWellFormed(t: Text)
    requires forall i | 0 <= i < |t| :: !IsHighSurrogate(t[i]) && !IsLowSurrogate(t[i])
    ensures WellFormed(t)
  {
    if t != [] { PlainIsWellFormed(t[1..]); }
  }

  lemma {:induction false} QuoteBodyWellFormed(s: Text)
    ensures WellFormed(QuoteBody(s))
    decreases |s|
  {
    if s == [] {
      PlainIsWellFormed([QUOTE]);
    } else {
      if StartsWithPair(s) {
        assert WellFormed(s[..2]) by { assert s[..2][2..] == []; }
      } else {
        PlainIsWellFormed(EscapeUnit(s[0]));
      }
      QuoteBodyWellFormed(s[ChunkLength(s)..]);
      WellFormedConcat(EscapeChunk(s), QuoteBody(s[ChunkLength(s)..]));
    }
  }

  lemma QuoteWellFormed(s: Text)
    ensures WellFormed(Quote(s))
  {
    PlainIsWellFormed([QUOTE]);
    QuoteBodyWellFormed(s);
    WellFormedConcat([QUOTE], QuoteBody(s));
  }

  lemma LiteralsWellFormed()
    ensures WellFormed(NULL_TEXT) && WellFormed(TRUE_TEXT) && WellFormed(FALSE_TEXT)
  {
    PlainIsWellFormed(NULL_TEXT);
    PlainIsWellFormed(TRUE_TEXT);
    PlainIsWellFormed(FALSE_TEXT);
  }

  /** A lone surrogate is always escaped, so the text can be encoded exactly. */
  lemma {:induction false} StringifyWellFormed(v: Json)
    ensures WellFormed(StableStringify(v))
    decreases v, 2, 0
  {
    hide WellFormed, Quote, JoinItems, JoinMembers;
    LiteralsWellFormed();
    match v
    case Str(s) => QuoteWellFormed(s);
    case Array(items) => ArrayWellFormed(v);
    case Object(es) => ObjectWellFormed(v);
    case Number(t) => PlainIsWellFormed(t);
    case _ =>
  }

  lemma {:induction false} ArrayWellFormed(v: Json)
    requires v.Array?
    ensures WellFormed(StableStringify(v))
    decreases v, 1, 0
  {
    JoinItemsWellFormed(v, v.items);
    Bracketed(OPEN_BRACKET, JoinItems(v, v.items), CLOSE_BRACKET);
  }

  lemma {:induction false} ObjectWellFormed(v: Json)
    requires v.Object?
    ensures WellFormed(StableStringify(v))
    decreases v, 1, 0
  {
    EntriesBelow(v);
    JoinMembersWellFormed(v, SortByKey(Defined(v.entries)));
    Bracketed(OPEN_BRACE, JoinMembers(v, SortByKey(Defined(v.entries))), CLOSE_BRACE);
  }

  lemma Bracketed(open: CodeUnit, t: Text, close: CodeUnit)
    requires open < 0xD800 && close < 0xD800 && WellFormed(t)
    ensures WellFormed([open] + t + [close])
  {
    PlainIsWellFormed([open]);
    PlainIsWellFormed([close]);
    WellFormedConcat([open], t);
    WellFormedConcat([open] + t, [close]);
  }

  lemma {:induction false} JoinItemsWellFormed(v: Json, items: seq<Json>)
    requires forall i | 0 <= i < |items| :: items[i] < v
    ensures WellFormed(JoinItems(v, items))
    decreases v, 0, |items|
  {
    if items != [] {
      StringifyWellFormed(items[0]);
      if |items| > 1 {
        JoinItemsWellFormed(v, items[1..]);
        Separated(StableStringify(items[0]), COMMA, JoinItems(v, items[1..]));
      }
    }
  }

  lemma Separated(s: Text, separator: CodeUnit, t: Text)
    requires separator < 0xD800 && WellFormed(s) && WellFormed(t)
    ensures WellFormed(s + [separator] + t)
  {
    PlainIsWellFormed([separator]);
    WellFormedConcat(s, [separator]);
    WellFormedConcat(s + [separator], t);
  }

  lemma {:induction false} JoinMembersWellFormed(v: Json, es: seq<Entry>)
    requires forall e | e in es :: e.value < v
    ensures WellFormed(JoinMembers(v, es))
    decreases v, 0, |es|
  {
    if es != [] {
      QuoteWellFormed(es[0].key);
      StringifyWellFormed(es[0].value);
      Separated(Quote(es[0].key), COLON, StableStringify(es[0].value));
      if |es| > 1 {
        JoinMembersWellFormed(v, es[1..]);
        Separated(Member(v, es[0]), COMMA, JoinMembers(v, es[1..]));
      }
    }
  }

  /** The lead byte of a code point is never a continuation byte and fixes the length. */
  lemma Utf8PointUnique(c: nat, d: nat, x: seq<Byte>, y: seq<Byte>)
    requires c < 0x110000 && d < 0x110000
    requires Utf8Point(c) + x == Utf8Point(d) + y
    ensures c == d && x == y
  {
    var l, r := Utf8Point(c) + x, Utf8Point(d) + y;
    assert l[0] == Utf8Point(c)[0] && r[0] == Utf8Point(d)[0];
    assert |Utf8Point(c)| == |Utf8Point(d)|;
    assert Utf8Point(c) == l[..|Utf8Point(c)|] && Utf8Point(d) == r[..|Utf8Point(d)|];
    assert x == l[|Utf8Point(c)|..] && y == r[|Utf8Point(d)|..];
    SamePointBytes(c, d);
  }

  lemma {:induction false} SamePointBytes(c: nat, d: nat)
    requires c < 0x110000 && d < 0x110000
    requires Utf8Point(c) == Utf8Point(d)
    ensures c == d
  {
    var p, q := Utf8Point(c), Utf8Point(d);
    assert p[0] == q[0];
    assert |p| >= 2 ==> p[1] == q[1];
    assert |p| >= 3 ==> p[2] == q[2];
    assert |p| >= 4 ==> p[3] == q[3];
    SixBitDigits(c);
    SixBitDigits(d);
  }

  lemma SixBitDigits(c: nat)
    ensures c == c / 64 * 64 + c % 64
    ensures c == c / 4096 * 4096 + c / 64 % 64 * 64 + c % 64
    ensures c == c / 262144 * 262144 + c / 4096 % 64 * 4096 + c / 64 % 64 * 64 + c % 64
  {
    QuotientDigit(c, 64);
    QuotientDigit(c, 4096);
  }

  lemma QuotientDigit(c: nat, k: nat)
    requires k == 64 || k == 4096
    ensures c / k == c / (k * 64) * 64 + c / k % 64
  {
    assert c / k / 64 == c / (k * 64);
  }

  lemma SameCodePoint(s: Text, t: Text)
    requires s != [] && t != [] && WellFormed(s) && WellFormed(t)
    requires CodePoint(s) == CodePoint(t)
    ensures ChunkLength(s) == ChunkLength(t)
    ensures s[..ChunkLength(s)] == t[..ChunkLength(t)]
  {
    if StartsWithPair(s) && StartsWithPair(t) {
      assert s[0] == t[0];
    }
  }

  lemma {:induction false} Utf8Injective(s: Text, t: Text)
    requires WellFormed(s) && WellFormed(t)
    requires Utf8(s) == Utf8(t)
    ensures s == t
    decreases |s|
  {
    if s != [] && t != [] {
      var m, n := ChunkLength(s), ChunkLength(t);
      Utf8PointUnique(CodePoint(s), CodePoint(t), Utf8(s[m..]), Utf8(t[n..]));
      SameCodePoint(s, t);
      Utf8Injective(s[m..], t[n..]);
      SplitAgain(s, t, m);
    }
  }

  // ---- Main results ------------------------------------------------------

  /** The bytes handed to the digest. */
  function CanonicalBytes(v: Json): seq<Byte> {
    Utf8(StableStringify(v))
  }

  /** Two trees give the same bytes exactly when they mean the same value. */
  lemma {:induction false} CanonicalBytesExact(a: Json, b: Json)
    requires DistinctKeysWithin(a) && DistinctKeysWithin(b)
    ensures CanonicalBytes(a) == CanonicalBytes(b) <==> Meaning(a) == Meaning(b)
  {
    if CanonicalBytes(a) == CanonicalBytes(b) {
      StringifyWellFormed(a);
      StringifyWellFormed(b);
      Utf8Injective(StableStringify(a), StableStringify(b));
    }
    CanonicalText(a, b);
  }

  /** Reordering the keys of an object, at any depth below, never changes the text. */
  lemma KeyOrderIsInvisible(es: seq<Entry>, fs: seq<Entry>)
    requires DistinctKeysWithin(Object(es))
    requires multiset(es) == multiset(fs)
    requires DistinctKeysWithin(Object(fs))
    ensures StableStringify(Object(es)) == StableStringify(Object(fs))
  {
    var a, b := Object(es), Object(fs);
    forall e ensures e in es <==> e in fs {
      assert e in es <==> e in multiset(es);
    }
    ObjectMembersAt(a);
    ObjectMembersAt(b);
    assert Meaning(a).members == Meaning(b).members;
    CanonicalText(a, b);
  }

  lemma ObjectMembersAt(v: Json)
    requires v.Object? && DistinctKeysWithin(v)
    ensures var m := Meaning(v).members;
            && (forall e | e in v.entries && !e.value.Undefined? :: e.key in m && m[e.key] == Meaning(e.value))
            && (forall k | k in m :: exists e :: e in v.entries && !e.value.Undefined? && e.key == k)
  {
    assert forall i | 0 <= i < |v.entries| :: v.entries[i].value < v;
    MeaningOfEntriesMembers(v, v.entries);
  }
}
