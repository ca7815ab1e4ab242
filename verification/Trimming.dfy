/** Trimming as JavaScript does it, for texts of code units and of characters. */
module Trimming {

  /** White space and line terminators, by their code. */
  predicate IsBlank(code: nat) {
    || 0x09 <= code <= 0x0D
    || code in {0x20, 0xA0, 0x1680, 0x2028, 0x2029, 0x202F, 0x205F, 0x3000, 0xFEFF}
    || 0x2000 <= code <= 0x200A
  }

  predicate BlankChar(c: char) {
    IsBlank(c as nat)
  }

  /** Among the first 128 characters: space, tab, line feed, vertical tab, form feed and carriage return. */
  lemma AsciiBlanks(c: char)
    requires c < 128 as char
    ensures BlankChar(c) <==> c in {' ', '\t', '\n', 0x0B as char, 0x0C as char, '\r'}
  {
  }

  function TrimStart<T>(s: seq<T>, blank: T -> bool): seq<T> {
    if s != [] && blank(s[0]) then TrimStart(s[1..], blank) else s
  }

  function TrimEnd<T>(s: seq<T>, blank: T -> bool): seq<T> {
    if s != [] && blank(s[|s| - 1]) then TrimEnd(s[..|s| - 1], blank) else s
  }

  function Trim<T>(s: seq<T>, blank: T -> bool): seq<T> {
    TrimEnd(TrimStart(s, blank), blank)
  }

  /** No blank at either end. */
  predicate Trimmed<T>(s: seq<T>, blank: T -> bool) {
    s == [] || (!blank(s[0]) && !blank(s[|s| - 1]))
  }

  lemma {:induction false} TrimStartShape<T>(s: seq<T>, blank: T -> bool) returns (n: nat)
    ensures n <= |s| && TrimStart(s, blank) == s[n..] && forall i | 0 <= i < n :: blank(s[i])
    ensures TrimStart(s, blank) != [] ==> !blank(TrimStart(s, blank)[0])
  {
    if s != [] && blank(s[0]) {
      var m := TrimStartShape(s[1..], blank);
      n := m + 1;
      assert s[1..][m..] == s[n..];
      assert forall i | 1 <= i < n :: s[i] == s[1..][i - 1];
    } else {
      n := 0;
    }
  }

  lemma {:induction false} TrimEndShape<T>(s: seq<T>, blank: T -> bool) returns (n: nat)
    ensures n <= |s| && TrimEnd(s, blank) == s[..n] && forall i | n <= i < |s| :: blank(s[i])
    ensures TrimEnd(s, blank) != [] ==> !blank(TrimEnd(s, blank)[|TrimEnd(s, blank)| - 1])
  {
    if s != [] && blank(s[|s| - 1]) {
      n := TrimEndShape(s[..|s| - 1], blank);
      assert s[..|s| - 1][..n] == s[..n];
    } else {
      n := |s|;
      assert s[..n] == s;
    }
  }

  /** Trimming cuts blanks off both ends, nothing else, and leaves none there. */
  lemma TrimExact<T>(s: seq<T>, blank: T -> bool) returns (from: nat, to: nat)
    ensures from <= to <= |s| && Trim(s, blank) == s[from..to] && Trimmed(Trim(s, blank), blank)
    ensures forall i | 0 <= i < from || to <= i < |s| :: blank(s[i])
  {
    from := TrimStartShape(s, blank);
    var rest := TrimStart(s, blank);
    var n := TrimEndShape(rest, blank);
    to := from + n;
    assert s[from..][..n] == s[from..to];
    assert forall i | to <= i < |s| :: s[i] == rest[i - from];
  }

  lemma TrimmedUnchanged<T>(s: seq<T>, blank: T -> bool)
    requires Trimmed(s, blank)
    ensures Trim(s, blank) == s
  {
  }

  /** A text trims to nothing exactly when it is blank throughout. */
  lemma TrimEmpty<T>(s: seq<T>, blank: T -> bool)
    ensures Trim(s, blank) == [] <==> forall i | 0 <= i < |s| :: blank(s[i])
  {
    var from, to := TrimExact(s, blank);
    if from < to { assert Trim(s, blank)[0] == s[from]; }
  }
}
