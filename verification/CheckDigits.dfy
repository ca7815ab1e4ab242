/** Card and CLABE check digits, and the errors they catch. */
module CheckDigits {

  type Digit = d: nat | d < 10

  // ---- Luhn ----------------------------------------------------------------------

  /** A doubled digit, with nine taken off when it has two figures. */
  function Doubled(d: Digit): Digit {
    if 2 * d > 9 then 2 * d - 9 else 2 * d
  }

  /** What a digit adds, `fromRight` places before the last one. */
  function LuhnTerm(d: Digit, fromRight: nat): Digit {
    if fromRight % 2 == 1 then Doubled(d) else d
  }

  function LuhnSum(s: seq<Digit>): nat {
    if s == [] then 0 else LuhnTerm(s[0], |s| - 1) + LuhnSum(s[1..])
  }

  predicate LuhnValid(s: seq<Digit>) {
    s != [] && LuhnSum(s) % 10 == 0
  }

  method IsLuhnValid(s: seq<Digit>) returns (valid: bool)
    ensures valid <==> LuhnValid(s)
  {
    var sum := 0;
    for i := 0 to |s|
      invariant sum == LuhnSum(s[|s| - i..])
    {
      var d: nat := s[|s| - 1 - i];
      if i % 2 == 1 {
        d := d * 2;
        if d > 9 {
          d := d - 9;
        }
      }
      sum := sum + d;
      assert s[|s| - (i + 1)..][1..] == s[|s| - i..];
    }
    assert s[0..] == s;
    valid := |s| > 0 && sum % 10 == 0;
  }

  lemma {:induction false} LuhnSumSnocs(s: seq<Digit>, a: Digit, b: Digit)
    ensures LuhnSum(s + [a, b]) == LuhnSum(s) + Doubled(a) + b
    decreases |s|
  {
    if s == [] {
      assert [a, b][1..] == [b] && [b][1..] == [];
      assert s + [a, b] == [a, b];
    } else {
      assert (s + [a, b])[1..] == s[1..] + [a, b];
      LuhnSumSnocs(s[1..], a, b);
    }
  }

  /** From the right the digits count once and twice in turn, the last one once; of a doubled digit both figures count. */
  lemma LuhnByPairs(s: seq<Digit>, a: Digit, b: Digit)
    ensures LuhnSum([]) == 0 && LuhnSum([b]) == b
    ensures LuhnSum(s + [a, b]) == LuhnSum(s) + (2 * a / 10 + 2 * a % 10) + b
  {
    LuhnSumSnocs(s, a, b);
    assert [b][1..] == [];
  }

  /** Every payload has exactly one check digit. */
  lemma {:induction false} LuhnCheckDigit(payload: seq<Digit>, d: Digit)
    ensures LuhnValid(payload + [d]) <==> d == (10 - LuhnSum(payload + [0]) % 10) % 10
  {
    LuhnChange(payload + [0], |payload|, d);
    assert (payload + [0])[|payload| := d] == payload + [d];
    hide LuhnSum;
    ClosesToTen(LuhnSum(payload + [0]), d);
  }

  lemma ClosesToTen(sum: nat, d: Digit)
    ensures (sum + d) % 10 == 0 <==> d == (10 - sum % 10) % 10
  {
    AddTermModTen(0, 0, sum);
    SameRemainder(sum + d, sum % 10 + d, sum / 10);
  }

  /** Changing one digit changes the sum by that digit's term. */
  lemma {:induction false} LuhnChange(s: seq<Digit>, i: nat, d: Digit)
    requires i < |s|
    ensures LuhnSum(s[i := d]) == LuhnSum(s) - LuhnTerm(s[i], |s| - 1 - i) + LuhnTerm(d, |s| - 1 - i)
    decreases |s|
  {
    if i == 0 {
      assert s[i := d][1..] == s[1..];
    } else {
      assert s[i := d][1..] == s[1..][i - 1 := d];
      LuhnChange(s[1..], i - 1, d);
    }
  }

  lemma DoubledInjective(a: Digit, b: Digit)
    requires Doubled(a) == Doubled(b)
    ensures a == b
  {
  }

  /** Luhn rejects every change of a single digit. */
  lemma LuhnCatchesOneDigit(s: seq<Digit>, i: nat, d: Digit)
    requires LuhnValid(s) && i < |s| && d != s[i]
    ensures !LuhnValid(s[i := d])
  {
    LuhnChange(s, i, d);
    var a, b := LuhnTerm(s[i], |s| - 1 - i), LuhnTerm(d, |s| - 1 - i);
    if a == b && (|s| - 1 - i) % 2 == 1 {
      DoubledInjective(s[i], d);
    }
    DigitsDifferModTen(LuhnSum(s), a, b);
  }

  lemma DigitsDifferModTen(sum: int, a: Digit, b: Digit)
    requires a != b && sum % 10 == 0
    ensures (sum - a + b) % 10 != 0
  {
    MultipleOfTen(sum, b as int - a as int);
  }

  function SwapAdjacent(s: seq<Digit>, i: nat): seq<Digit>
    requires i + 1 < |s|
  {
    s[i := s[i + 1]][i + 1 := s[i]]
  }

  function Gain(a: Digit, b: Digit): int {
    (Doubled(a) as int - a as int) - (Doubled(b) as int - b as int)
  }

  lemma TermsSwapped(a: Digit, b: Digit, p: nat)
    ensures var change := (LuhnTerm(b, p + 1) as int - LuhnTerm(a, p + 1) as int) + (LuhnTerm(a, p) as int - LuhnTerm(b, p) as int);
            change == Gain(a, b) || change == -Gain(a, b)
  {
    assert p % 2 == 1 <==> (p + 1) % 2 == 0;
  }

  lemma {:induction false} LuhnSwapChange(s: seq<Digit>, i: nat)
    requires i + 1 < |s|
    ensures var swapped := LuhnSum(SwapAdjacent(s, i));
            swapped == LuhnSum(s) + Gain(s[i], s[i + 1]) || swapped == LuhnSum(s) - Gain(s[i], s[i + 1])
  {
    hide LuhnSum, LuhnTerm, Gain, Doubled;
    var a, b := s[i], s[i + 1];
    LuhnChange(s, i, b);
    LuhnChange(s[i := b], i + 1, a);
    TermsSwapped(a, b, |s| - 2 - i);
  }

  /** Luhn accepts a swap of neighbours exactly when they are equal or 0 and 9. */
  lemma LuhnSwap(s: seq<Digit>, i: nat)
    requires LuhnValid(s) && i + 1 < |s|
    ensures LuhnValid(SwapAdjacent(s, i)) <==>
              s[i] == s[i + 1] || (s[i] == 0 && s[i + 1] == 9) || (s[i] == 9 && s[i + 1] == 0)
  {
    LuhnSwapChange(s, i);
    SwapGain(s[i], s[i + 1]);
    hide LuhnSum, Gain;
    MultipleOfTen(LuhnSum(s), Gain(s[i], s[i + 1]));
    MultipleOfTen(LuhnSum(s), -Gain(s[i], s[i + 1]));
  }

  /** What doubling adds to a digit, up to a multiple of nine: a value from -4 to 4. */
  lemma DoublingAdds(d: Digit)
    ensures Doubled(d) as int - d as int == if d < 5 then d else d - 9
  {
  }

  lemma SmallMultiple(n: int)
    requires -8 <= n <= 8
    ensures n % 10 == 0 <==> n == 0
  {
  }

  lemma SwapGain(a: Digit, b: Digit)
    ensures Gain(a, b) % 10 == 0 <==> a == b || (a == 0 && b == 9) || (a == 9 && b == 0)
    ensures Gain(a, b) % 10 == 0 <==> (-Gain(a, b)) % 10 == 0
  {
    DoublingAdds(a);
    DoublingAdds(b);
    hide Doubled;
    SmallMultiple(Gain(a, b));
    SmallMultiple(-Gain(a, b));
  }

  lemma MultipleOfTen(sum: int, change: int)
    requires sum % 10 == 0
    ensures (sum + change) % 10 == 0 <==> change % 10 == 0
  {
  }

  // ---- CLABE ---------------------------------------------------------------------

  const CLABE_LENGTH := 18

  function Weight(i: nat): nat {
    if i % 3 == 0 then 3 else if i % 3 == 1 then 7 else 1
  }

  /** The 3-7-1 weighted sum of a prefix. */
  function WeightedSum(s: seq<Digit>, n: nat): nat
    requires n <= |s|
  {
    if n == 0 then 0 else WeightedSum(s, n - 1) + s[n - 1] as nat * Weight(n - 1)
  }

  /** What the standard asks: all eighteen digits, the check digit included, sum to 0 mod 10. */
  predicate ClabeValid(s: seq<Digit>) {
    |s| == CLABE_LENGTH && WeightedSum(s, CLABE_LENGTH) % 10 == 0
  }

  method IsClabe(s: seq<Digit>) returns (valid: bool)
    ensures valid <==> ClabeValid(s)
  {
    if |s| != CLABE_LENGTH {
      return false;
    }
    var weights := [3, 7, 1];
    var sum: nat := 0;
    for i := 0 to CLABE_LENGTH - 1
      invariant sum % 10 == WeightedSum(s, i) % 10
    {
      var weight: nat := weights[i % 3];
      var term: nat := s[i] as nat * weight;
      assert weight == Weight(i);
      AddTermModTen(sum, WeightedSum(s, i), term);
      sum := sum + term % 10;
    }
    CheckDigitCloses(sum, WeightedSum(s, CLABE_LENGTH - 1), s[CLABE_LENGTH - 1]);
    valid := (10 - sum % 10) % 10 == s[CLABE_LENGTH - 1];
  }

  lemma SameRemainder(x: nat, y: nat, k: int)
    requires x == y + 10 * k
    ensures x % 10 == y % 10
  {
    var (q, r) := (y / 10, y % 10);
    assert x == 10 * (q + k) + r;
  }

  lemma AddTermModTen(sum: nat, whole: nat, term: nat)
    requires sum % 10 == whole % 10
    ensures (sum + term % 10) % 10 == (whole + term) % 10
  {
    var (a, b, c) := (sum / 10, whole / 10, term / 10);
    assert sum == 10 * a + sum % 10 && whole == 10 * b + whole % 10 && term == 10 * c + term % 10;
    SameRemainder(sum + term % 10, whole + term, a - b - c);
  }

  lemma CheckDigitCloses(sum: nat, whole: nat, d: Digit)
    requires sum % 10 == whole % 10
    ensures (10 - sum % 10) % 10 == d <==> (whole + d as nat * Weight(CLABE_LENGTH - 1)) % 10 == 0
  {
    assert Weight(17) == 1;
    AddTermModTen(sum % 10, whole, d);
  }

  lemma {:induction false} WeightedPrefix(s: seq<Digit>, t: seq<Digit>, n: nat)
    requires n <= |s|
    ensures WeightedSum(s + t, n) == WeightedSum(s, n)
    decreases n
  {
    if n > 0 { WeightedPrefix(s, t, n - 1); }
  }

  /** Three digits in turn weigh three, seven and one. */
  lemma {:induction false} WeightsInTurn(s: seq<Digit>, a: Digit, b: Digit, c: Digit)
    requires |s| % 3 == 0
    ensures WeightedSum(s, 0) == 0
    ensures WeightedSum(s + [a, b, c], |s| + 3) == WeightedSum(s, |s|) + 3 * a + 7 * b + c
  {
    var (t, n) := (s + [a, b, c], |s|);
    WeightedPrefix(s, [a, b, c], n);
    assert WeightedSum(t, n + 1) == WeightedSum(t, n) + t[n] as nat * Weight(n);
    assert WeightedSum(t, n + 2) == WeightedSum(t, n + 1) + t[n + 1] as nat * Weight(n + 1);
    assert WeightedSum(t, n + 3) == WeightedSum(t, n + 2) + t[n + 2] as nat * Weight(n + 2);
  }

  /** Seventeen digits have exactly one check digit. */
  lemma {:induction false} ClabeCheckDigit(payload: seq<Digit>, d: Digit)
    requires |payload| == 17
    ensures ClabeValid(payload + [d]) <==> d == (10 - WeightedSum(payload, 17) % 10) % 10
  {
    WeightedPrefix(payload, [d], 17);
    assert WeightedSum(payload + [d], 18) == WeightedSum(payload, 17) + d as nat * Weight(17);
    hide WeightedSum;
    ClosesToTen(WeightedSum(payload, 17), d);
  }

  lemma {:induction false} ClabeChange(s: seq<Digit>, i: nat, d: Digit, n: nat)
    requires i < |s| && n <= |s|
    ensures WeightedSum(s[i := d], n) == WeightedSum(s, n) + if i < n then (d as int - s[i] as int) * Weight(i) else 0
    decreases n
  {
    if n > 0 {
      ClabeChange(s, i, d, n - 1);
      assert s[i := d][n - 1] == if i == n - 1 then d else s[n - 1];
      hide Weight, WeightedSum;
      Distribute(d as int, s[i] as int, Weight(i));
    }
  }

  lemma Distribute(a: int, b: int, c: int)
    ensures (a - b) * c == a * c - b * c
  {
  }

  /** The CLABE check digit rejects every change of a single digit. */
  lemma ClabeCatchesOneDigit(s: seq<Digit>, i: nat, d: Digit)
    requires ClabeValid(s) && i < |s| && d != s[i]
    ensures !ClabeValid(s[i := d])
  {
    ClabeChange(s, i, d, CLABE_LENGTH);
    hide WeightedSum;
    var change := (d as int - s[i] as int) * Weight(i);
    WeightedDifference(d as int - s[i] as int, i);
    MultipleOfTen(WeightedSum(s, CLABE_LENGTH), change);
  }

  lemma WeightedDifference(difference: int, i: nat)
    requires -10 < difference < 10 && difference != 0
    ensures (difference * Weight(i)) % 10 != 0
  {
  }

  lemma ClabeSwapChange(s: seq<Digit>, i: nat)
    requires |s| == CLABE_LENGTH && i + 1 < |s|
    ensures WeightedSum(SwapAdjacent(s, i), CLABE_LENGTH) ==
            WeightedSum(s, CLABE_LENGTH) + (s[i + 1] as int - s[i] as int) * (Weight(i) - Weight(i + 1))
  {
    var t := s[i := s[i + 1]];
    ClabeChange(s, i, s[i + 1], CLABE_LENGTH);
    ClabeChange(t, i + 1, s[i], CLABE_LENGTH);
    hide WeightedSum, Weight;
    assert t[i + 1] == s[i + 1];
    OppositeChanges(s[i + 1] as int - s[i] as int, Weight(i), Weight(i + 1));
  }

  lemma OppositeChanges(difference: int, u: int, v: int)
    ensures difference * u + (-difference) * v == difference * (u - v)
  {
  }

  /** The CLABE check digit accepts a swap of neighbours exactly when they are equal or differ by 5. */
  lemma ClabeSwap(s: seq<Digit>, i: nat)
    requires ClabeValid(s) && i + 1 < |s|
    ensures ClabeValid(SwapAdjacent(s, i)) <==> s[i] == s[i + 1] || s[i] as int - s[i + 1] as int in {5, -5}
  {
    ClabeSwapChange(s, i);
    hide WeightedSum;
    var difference := s[i + 1] as int - s[i] as int;
    SwappedWeights(difference, i);
    hide Weight;
    MultipleOfTen(WeightedSum(s, CLABE_LENGTH), difference * (Weight(i) - Weight(i + 1)));
  }

  lemma SwappedWeights(difference: int, i: nat)
    requires -10 < difference < 10
    ensures (difference * (Weight(i) - Weight(i + 1))) % 10 == 0 <==> difference == 0 || difference == 5 || difference == -5
  {
    assert Weight(i) - Weight(i + 1) in {-4, 6, -2};
  }
}
