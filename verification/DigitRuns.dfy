/** Long digit runs in free text: finding them and masking them. */
module DigitRuns {

  const LONG := 10
  const MASK: char := '\U{2022}'

  predicate IsDigit(c: char) { '0' <= c <= '9' }

  predicate IsSeparator(c: char) { c == ' ' || c == '-' }

  function DigitsOf(s: string): (r: string)
    ensures |r| <= |s|
    ensures forall c | c in r :: IsDigit(c)
  {
    if s == "" then "" else (if IsDigit(s[0]) then [s[0]] else "") + DigitsOf(s[1..])
  }

  // ---- What a run is -----------------------------------------------------------

  /** Digits with at most one space or hyphen between neighbours. */
  predicate IsLinked(s: string) {
    && s != ""
    && '0' <= s[0] <= '9'
    && '0' <= s[|s| - 1] <= '9'
    && (forall i | 0 <= i < |s| :: '0' <= s[i] <= '9' || s[i] == ' ' || s[i] == '-')
    && (forall i | 0 <= i < |s| - 1 :: '0' <= s[i] <= '9' || '0' <= s[i + 1] <= '9')
  }

  predicate IsLongRun(s: string) {
    IsLinked(s) && |DigitsOf(s)| >= 10
  }

  ghost predicate ContainsLongRun(s: string) {
    exists i, j | 0 <= i <= j <= |s| :: IsLongRun(s[i..j])
  }

  // ---- The scanner ---------------------------------------------------------------

  /** How many characters after the first digit the pattern takes for the next digit. */
  function LinkStep(s: string): (n: nat)
    requires s != ""
    ensures n <= 2 && n < |s|
    ensures n > 0 ==> IsDigit(s[n])
  {
    if |s| > 1 && IsDigit(s[1]) then 1
    else if |s| > 2 && IsSeparator(s[1]) && IsDigit(s[2]) then 2
    else 0
  }

  /** The length of the greedy match of linked digits at the start. */
  function RunLength(s: string): (n: nat)
    ensures n <= |s|
    ensures n > 0 <==> s != "" && IsDigit(s[0])
  {
    if s == "" || !IsDigit(s[0]) then 0
    else if LinkStep(s) == 0 then 1
    else LinkStep(s) + RunLength(s[LinkStep(s)..])
  }

  /** The number of digits in that match. */
  function RunDigits(s: string): nat {
    if s == "" || !IsDigit(s[0]) then 0
    else if LinkStep(s) == 0 then 1
    else 1 + RunDigits(s[LinkStep(s)..])
  }

  predicate HasLongDigitRun(s: string) {
    s != "" && (RunDigits(s) >= LONG || HasLongDigitRun(s[1..]))
  }

  function LastFour(s: string): string {
    if |s| <= 4 then s else s[|s| - 4..]
  }

  function MaskLongDigitRuns(s: string): string {
    if s == "" then ""
    else if RunDigits(s) >= LONG then
      [MASK] + LastFour(DigitsOf(s[..RunLength(s)])) + MaskLongDigitRuns(s[RunLength(s)..])
    else [s[0]] + MaskLongDigitRuns(s[1..])
  }

  // ---- The scanner finds exactly the runs ----------------------------------------

  lemma PrependDigit(d: char, rest: string)
    requires IsDigit(d) && IsLinked(rest)
    ensures IsLinked([d] + rest) && |DigitsOf([d] + rest)| == 1 + |DigitsOf(rest)|
  {
    var run := [d] + rest;
    assert run[1..] == rest;
    forall i | 0 <= i < |run| - 1 ensures IsDigit(run[i]) || IsDigit(run[i + 1]) {
      if i > 0 { assert run[i] == rest[i - 1] && run[i + 1] == rest[i]; }
    }
  }

  lemma PrependDigitAndSeparator(d: char, c: char, rest: string)
    requires IsDigit(d) && IsSeparator(c) && IsLinked(rest)
    ensures IsLinked([d, c] + rest) && |DigitsOf([d, c] + rest)| == 1 + |DigitsOf(rest)|
  {
    var run := [d, c] + rest;
    assert run[1..] == [c] + rest;
    assert ([c] + rest)[1..] == rest;
    forall i | 0 <= i < |run| - 1 ensures IsDigit(run[i]) || IsDigit(run[i + 1]) {
      if i > 1 { assert run[i] == rest[i - 2] && run[i + 1] == rest[i - 1]; }
    }
  }

  lemma OneDigit(d: char)
    requires IsDigit(d)
    ensures IsLinked([d]) && |DigitsOf([d])| == 1
  {
    assert [d][1..] == "";
  }

  /** What the scanner does after a digit. */
  lemma ScannerStep(s: string)
    requires s != "" && IsDigit(s[0])
    ensures LinkStep(s) == 0 ==> RunLength(s) == 1 && RunDigits(s) == 1
    ensures LinkStep(s) > 0 ==>
              && IsDigit(s[LinkStep(s)..][0])
              && RunLength(s) == LinkStep(s) + RunLength(s[LinkStep(s)..]) && RunDigits(s) == 1 + RunDigits(s[LinkStep(s)..])
    ensures RunLength(s) >= 1 && RunDigits(s) >= 1
    ensures LinkStep(s) == 2 ==> IsSeparator(s[1])
  {
  }

  lemma {:induction false} RunIsLinked(s: string)
    requires RunLength(s) > 0
    ensures IsLinked(s[..RunLength(s)])
    ensures |DigitsOf(s[..RunLength(s)])| == RunDigits(s)
    decreases |s|
  {
    hide *;
    ScannerStep(s);
    OneDigit(s[0]);
    var k := LinkStep(s);
    if k == 0 {
      assert s[..1] == [s[0]];
    } else {
      var rest := s[k..][..RunLength(s[k..])];
      RunIsLinked(s[k..]);
      if k == 1 {
        assert s[..RunLength(s)] == [s[0]] + rest;
        PrependDigit(s[0], rest);
      } else {
        assert s[..RunLength(s)] == [s[0], s[1]] + rest;
        PrependDigitAndSeparator(s[0], s[1], rest);
      }
    }
  }

  /** The pattern's next digit is that of the linked prefix. */
  lemma LinkedBeyondFirst(s: string, m: nat)
    requires 2 <= m <= |s| && IsLinked(s[..m])
    ensures 0 < LinkStep(s) < m
    ensures LinkStep(s) == 2 ==> !IsDigit(s[1])
    ensures IsLinked(s[LinkStep(s)..][..m - LinkStep(s)])
  {
    var p := s[..m];
    var k := if IsDigit(s[1]) then 1 else 2;
    assert p[1] == s[1] && p[m - 1] == s[m - 1];
    assert k == 2 ==> IsDigit(p[2]) && p[2] == s[2];
    assert LinkStep(s) == k;
    assert p[k..] == s[k..][..m - k];
    LinkedSuffix(p, k);
  }

  lemma LinkedStart(s: string, m: nat)
    requires m <= |s| && IsLinked(s[..m])
    ensures m > 0 && IsDigit(s[0])
  {
    assert m > 0 && s[..m][0] == s[0];
  }

  lemma CountedBeyondFirst(s: string, m: nat)
    requires 2 <= m <= |s| && IsDigit(s[0]) && 0 < LinkStep(s) < m && (LinkStep(s) == 2 ==> !IsDigit(s[1]))
    ensures |DigitsOf(s[..m])| == 1 + |DigitsOf(s[LinkStep(s)..][..m - LinkStep(s)])|
  {
    var (p, k) := (s[..m], LinkStep(s));
    var q := s[k..][..m - k];
    assert p[0] == s[0] && p[1] == s[1];
    assert p[1..] == if k == 1 then q else [s[1]] + q;
    if k == 2 { assert ([s[1]] + q)[1..] == q; }
  }

  /** No linked prefix holds more digits than the greedy match. */
  lemma {:induction false} LinkedPrefixCounted(s: string, m: nat)
    requires m <= |s| && IsLinked(s[..m])
    ensures |DigitsOf(s[..m])| <= RunDigits(s)
    ensures m <= RunLength(s)
    decreases m
  {
    hide *;
    LinkedStart(s, m);
    ScannerStep(s);
    if m > 1 {
      LinkedBeyondFirst(s, m);
      CountedBeyondFirst(s, m);
      LinkedPrefixCounted(s[LinkStep(s)..], m - LinkStep(s));
    }
  }

  lemma LinkedSuffix(p: string, k: nat)
    requires IsLinked(p) && k < |p| && IsDigit(p[k])
    ensures IsLinked(p[k..])
  {
    var q := p[k..];
    forall i | 0 <= i < |q| - 1 ensures IsDigit(q[i]) || IsDigit(q[i + 1]) {
      assert q[i] == p[k + i] && q[i + 1] == p[k + i + 1];
    }
  }

  lemma SliceOfTail(s: string, i: nat, j: nat)
    requires s != "" && 1 <= i <= j <= |s|
    ensures s[1..][i - 1..j - 1] == s[i..j]
  {
  }

  lemma RunInTail(s: string)
    requires s != "" && ContainsLongRun(s[1..])
    ensures ContainsLongRun(s)
  {
    hide IsLongRun;
    var i, j :| 0 <= i <= j <= |s[1..]| && IsLongRun(s[1..][i..j]);
    SliceOfTail(s, i + 1, j + 1);
    assert IsLongRun(s[i + 1..j + 1]);
  }

  lemma NoRunAnywhere(s: string)
    requires s != "" && !ContainsLongRun(s[1..]) && RunDigits(s) < LONG
    ensures !ContainsLongRun(s)
  {
    forall i, j | 0 <= i <= j <= |s| ensures !IsLongRun(s[i..j]) {
      if i > 0 {
        SliceOfTail(s, i, j);
      } else if IsLinked(s[..j]) {
        LinkedPrefixCounted(s, j);
        assert s[0..j] == s[..j];
      }
    }
  }

  /** The scanner reports a run exactly when the text contains one. */
  lemma {:induction false} ScannerExact(s: string)
    ensures HasLongDigitRun(s) <==> ContainsLongRun(s)
    decreases |s|
  {
    if s == "" {
      forall i, j | 0 <= i <= j <= |s| ensures !IsLongRun(s[i..j]) {
        assert s[i..j] == "";
      }
    } else {
      ScannerExact(s[1..]);
      hide ContainsLongRun, IsLinked;
      if RunDigits(s) >= LONG {
        RunIsLinked(s);
        LongPrefix(s, RunLength(s));
      } else if ContainsLongRun(s[1..]) {
        RunInTail(s);
      } else {
        NoRunAnywhere(s);
      }
    }
  }

  lemma LongPrefix(s: string, n: nat)
    requires n <= |s| && IsLongRun(s[..n])
    ensures ContainsLongRun(s)
  {
    assert s[0..n] == s[..n];
  }

  // ---- Masking ---------------------------------------------------------------------

  /** Text that cannot continue a run that ends just before it. */
  predicate CannotContinue(s: string) {
    s == "" || (!IsDigit(s[0]) && (IsSeparator(s[0]) ==> |s| == 1 || !IsDigit(s[1])))
  }

  /** A text that starts with something other than a digit keeps its first character. */
  lemma MaskKeepsHead(s: string)
    requires s != "" && RunDigits(s) < LONG
    ensures MaskLongDigitRuns(s) == [s[0]] + MaskLongDigitRuns(s[1..])
  {
  }

  lemma MaskCannotContinue(s: string)
    requires CannotContinue(s)
    ensures CannotContinue(MaskLongDigitRuns(s))
  {
    if s != "" {
      MaskKeepsHead(s);
      if |s| > 1 && !IsDigit(s[1]) {
        MaskKeepsHead(s[1..]);
      }
    }
  }

  lemma {:induction false} RunCannotContinue(s: string)
    requires RunLength(s) > 0
    ensures CannotContinue(s[RunLength(s)..])
    decreases |s|
  {
    var k := LinkStep(s);
    if k > 0 {
      RunCannotContinue(s[k..]);
      assert s[k..][RunLength(s[k..])..] == s[RunLength(s)..];
    }
  }

  /** A short run keeps its digit count under masking; a long one is gone. */
  lemma {:induction false} MaskedRunDigits(s: string)
    ensures RunDigits(MaskLongDigitRuns(s)) == if RunDigits(s) >= LONG then 0 else RunDigits(s)
    decreases |s|
  {
    if s != "" && IsDigit(s[0]) && RunDigits(s) < LONG {
      var k := LinkStep(s);
      MaskKeepsHead(s);
      if k == 0 {
        MaskCannotContinue(s[1..]);
      } else {
        MaskedRunDigits(s[k..]);
        MaskKeepsHead(s[k..]);
        if k == 2 {
          MaskKeepsHead(s[1..]);
          assert s[1..][1..] == s[2..];
        }
        MaskedLink(s, k);
      }
    }
  }

  lemma MaskedLink(s: string, k: nat)
    requires s != "" && IsDigit(s[0]) && 0 < k == LinkStep(s) && RunDigits(s) < LONG
    ensures LinkStep(MaskLongDigitRuns(s)) == k
    ensures |MaskLongDigitRuns(s)| > k && MaskLongDigitRuns(s)[k..] == MaskLongDigitRuns(s[k..])
    ensures MaskLongDigitRuns(s)[0] == s[0]
  {
    MaskKeepsHead(s);
    MaskKeepsHead(s[k..]);
    if k == 2 {
      MaskKeepsHead(s[1..]);
      assert s[1..][1..] == s[2..];
    }
  }

  /** A few digits before text that cannot continue them form a short run. */
  lemma {:induction false} ShortRunBefore(d: string, s: string)
    requires |d| < LONG && (forall c | c in d :: IsDigit(c)) && CannotContinue(s)
    requires !HasLongDigitRun(s)
    ensures RunDigits(d + s) <= |d| && !HasLongDigitRun(d + s)
    decreases |d|
  {
    if d == "" {
      assert d + s == s;
    } else {
      assert (d + s)[1..] == d[1..] + s;
      ShortRunBefore(d[1..], s);
    }
  }

  lemma LastFourDigits(s: string)
    ensures |LastFour(DigitsOf(s))| <= 4 && forall c | c in LastFour(DigitsOf(s)) :: IsDigit(c)
  {
  }

  lemma {:induction false} MaskStart(last: string, rest: string)
    requires |last| < LONG && (forall c | c in last :: IsDigit(c)) && CannotContinue(rest)
    requires !HasLongDigitRun(rest)
    ensures !HasLongDigitRun([MASK] + last + rest)
  {
    ShortRunBefore(last, rest);
    assert [MASK] + last + rest == [MASK] + (last + rest);
    assert ([MASK] + (last + rest))[1..] == last + rest;
  }

  lemma HasRunStep(c: char, rest: string)
    ensures HasLongDigitRun([c] + rest) <==> RunDigits([c] + rest) >= LONG || HasLongDigitRun(rest)
  {
    assert ([c] + rest)[1..] == rest;
  }

  /** No long run survives masking. */
  lemma {:induction false} MaskedHasNoLongRun(s: string)
    ensures !HasLongDigitRun(MaskLongDigitRuns(s))
    decreases |s|
  {
    if s == "" {
    } else if RunDigits(s) >= LONG {
      var n := RunLength(s);
      MaskedHasNoLongRun(s[n..]);
      RunCannotContinue(s);
      MaskCannotContinue(s[n..]);
      LastFourDigits(s[..n]);
      MaskStart(LastFour(DigitsOf(s[..n])), MaskLongDigitRuns(s[n..]));
    } else {
      MaskedHasNoLongRun(s[1..]);
      MaskedRunDigits(s);
      MaskKeepsHead(s);
      HasRunStep(s[0], MaskLongDigitRuns(s[1..]));
    }
  }

  lemma {:induction false} UnmaskedUnchanged(s: string)
    requires !HasLongDigitRun(s)
    ensures MaskLongDigitRuns(s) == s
    decreases |s|
  {
    if s != "" {
      UnmaskedUnchanged(s[1..]);
    }
  }

  /** Masking is complete, changes a text exactly when it has a run to hide, and is idempotent. */
  lemma MaskingIsComplete(s: string)
    ensures !ContainsLongRun(MaskLongDigitRuns(s))
    ensures MaskLongDigitRuns(s) == s <==> !ContainsLongRun(s)
    ensures MaskLongDigitRuns(MaskLongDigitRuns(s)) == MaskLongDigitRuns(s)
  {
    MaskedHasNoLongRun(s);
    ScannerExact(s);
    ScannerExact(MaskLongDigitRuns(s));
    if !HasLongDigitRun(s) {
      UnmaskedUnchanged(s);
    }
    UnmaskedUnchanged(MaskLongDigitRuns(s));
  }

  // ---- What masking shows ------------------------------------------------------------

  /** A linked text followed by text that cannot continue it is matched whole. */
  lemma {:induction false} WholeRunMatched(run: string, post: string)
    requires IsLinked(run) && CannotContinue(post)
    ensures RunLength(run + post) == |run| && RunDigits(run + post) == |DigitsOf(run)|
    decreases |run|
  {
    var s := run + post;
    assert s[..|run|] == run;
    LinkedPrefixCounted(s, |run|);
    RunIsLinked(s);
    if RunLength(s) > |run| {
      LinkedPastEnd(run, post, RunLength(s));
    }
    assert s[..RunLength(s)] == run;
  }

  lemma LinkedPastEnd(run: string, post: string, n: nat)
    requires IsLinked(run) && CannotContinue(post) && |run| < n <= |run + post|
    ensures !IsLinked((run + post)[..n])
  {
    var p := (run + post)[..n];
    assert p[|run|] == post[0] && p[n - 1] == post[n - 1 - |run|];
    if n > |run| + 1 {
      assert p[|run| + 1] == post[1];
    }
  }

  lemma LeadingRunMasked(run: string, post: string)
    requires IsLongRun(run) && CannotContinue(post)
    ensures MaskLongDigitRuns(run + post) ==
            ['\U{2022}'] + DigitsOf(run)[|DigitsOf(run)| - 4..] + MaskLongDigitRuns(post)
  {
    WholeRunMatched(run, post);
    assert (run + post)[..|run|] == run && (run + post)[|run|..] == post;
    hide IsLinked, RunLength, RunDigits, CannotContinue;
    assert LastFour(DigitsOf(run)) == DigitsOf(run)[|DigitsOf(run)| - 4..];
    hide DigitsOf, LastFour;
  }

  lemma TailOfAppend(pre: string, x: string)
    requires pre != ""
    ensures (pre + x)[0] == pre[0] && (pre + x)[1..] == pre[1..] + x
    ensures forall y: string :: [pre[0]] + (pre[1..] + y) == pre + y
  {
  }

  /** Characters at which no long run starts are kept. */
  lemma {:induction false} PrefixKept(pre: string, x: string)
    requires forall i | 0 <= i < |pre| :: RunDigits((pre + x)[i..]) < LONG
    ensures MaskLongDigitRuns(pre + x) == pre + MaskLongDigitRuns(x)
    decreases |pre|
  {
    if pre == "" {
      assert pre + x == x;
    } else {
      var s := pre + x;
      assert s[0..] == s;
      MaskKeepsHead(s);
      hide RunDigits, MaskLongDigitRuns;
      TailOfAppend(pre, x);
      forall i | 0 <= i < |pre[1..]| ensures RunDigits((pre[1..] + x)[i..]) < LONG {
        assert s[1..][i..] == s[i + 1..];
      }
      PrefixKept(pre[1..], x);
    }
  }

  /** Everything before the first long run stays, the run becomes its last four digits. */
  lemma FirstRunMasked(pre: string, run: string, post: string)
    requires IsLongRun(run) && CannotContinue(post)
    requires forall i | 0 <= i < |pre| :: RunDigits((pre + (run + post))[i..]) < LONG
    ensures MaskLongDigitRuns(pre + (run + post)) ==
            pre + (['\U{2022}'] + DigitsOf(run)[|DigitsOf(run)| - 4..] + MaskLongDigitRuns(post))
  {
    LeadingRunMasked(run, post);
    PrefixKept(pre, run + post);
  }
}
