/** Amount due against amount received, in integer cents. */
module Reconciliation {
  import opened Options

  datatype PaymentStatus = Recorded | Verified | Voided

  /** An amount that is no number reads as absent. */
  datatype Payment = Payment(cents: Option<int>, currency: string, status: PaymentStatus)

  datatype BalanceState = NoTarget | Unpaid | Partial | Paid | Overpaid

  datatype Balance = Balance(
    state: BalanceState,
    currency: string,
    dueCents: Option<int>,
    receivedCents: int,
    verifiedCents: int,
    differenceCents: Option<int>,
    otherCurrencyCount: int)

  function UpperChar(c: char): char {
    if 'a' <= c <= 'z' then (c as int - 'a' as int + 'A' as int) as char else c
  }

  function Upper(s: string): string {
    if s == "" then "" else [UpperChar(s[0])] + Upper(s[1..])
  }

  predicate In(p: Payment, currency: string) {
    p.status != Voided && Upper(p.currency) == currency
  }

  predicate Elsewhere(p: Payment, currency: string) {
    p.status != Voided && Upper(p.currency) != currency
  }

  function Sum(payments: seq<Payment>, weight: Payment -> int): int {
    if payments == [] then 0 else Sum(payments[..|payments| - 1], weight) + weight(payments[|payments| - 1])
  }

  function Received(currency: string): Payment -> int {
    (p: Payment) => if In(p, currency) then p.cents.GetOr(0) else 0
  }

  function VerifiedOnly(currency: string): Payment -> int {
    (p: Payment) => if In(p, currency) && p.status == Verified then p.cents.GetOr(0) else 0
  }

  function OtherCurrency(currency: string): Payment -> int {
    (p: Payment) => if Elsewhere(p, currency) then 1 else 0
  }

  function StateOf(due: Option<int>, received: int): BalanceState {
    if due.None? then NoTarget
    else if received == 0 then Unpaid
    else if received < due.value then Partial
    else if received == due.value then Paid
    else Overpaid
  }

  function Reconciled(due: Option<int>, dueCurrency: string, payments: seq<Payment>): Balance {
    var currency := Upper(dueCurrency);
    var received := Sum(payments, Received(currency));
    Balance(StateOf(due, received), currency, due, received, Sum(payments, VerifiedOnly(currency)),
            if due.Some? then Some(received - due.value) else None, Sum(payments, OtherCurrency(currency)))
  }

  method Reconcile(due: Option<int>, dueCurrency: string, payments: seq<Payment>) returns (r: Balance)
    ensures r == Reconciled(due, dueCurrency, payments)
  {
    var currency := Upper(dueCurrency);
    var receivedCents, verifiedCents, otherCurrencyCount := 0, 0, 0;
    for i := 0 to |payments|
      invariant receivedCents == Sum(payments[..i], Received(currency))
      invariant verifiedCents == Sum(payments[..i], VerifiedOnly(currency))
      invariant otherCurrencyCount == Sum(payments[..i], OtherCurrency(currency))
    {
      var p := payments[i];
      assert payments[..i + 1][..i] == payments[..i];
      if p.status == Voided {
        continue;
      }
      if Upper(p.currency) != currency {
        otherCurrencyCount := otherCurrencyCount + 1;
        continue;
      }
      var cents := p.cents.GetOr(0);
      receivedCents := receivedCents + cents;
      if p.status == Verified {
        verifiedCents := verifiedCents + cents;
      }
    }
    assert payments[..|payments|] == payments;
    if due.None? {
      return Balance(NoTarget, currency, due, receivedCents, verifiedCents, None, otherCurrencyCount);
    }
    var differenceCents := receivedCents - due.value;
    var state :=
      if receivedCents == 0 then Unpaid
      else if differenceCents < 0 then Partial
      else if differenceCents == 0 then Paid
      else Overpaid;
    r := Balance(state, currency, due, receivedCents, verifiedCents, Some(differenceCents), otherCurrencyCount);
  }

  // ---- What each payment counts ----------------------------------------------------------

  predicate SameCurrency(a: string, b: string) {
    |a| == |b| && forall i | 0 <= i < |a| :: UpperChar(a[i]) == UpperChar(b[i])
  }

  /** The two characters are the same, or the same letter from A to Z, one small and one capital. */
  lemma UpperCharExactly(c: char, d: char)
    ensures UpperChar(c) == UpperChar(d) <==>
              c == d || ('a' <= c <= 'z' && d as int == c as int - 32) || ('a' <= d <= 'z' && c as int == d as int - 32)
  {
  }

  lemma {:induction false} UpperAt(s: string)
    ensures |Upper(s)| == |s| && forall i | 0 <= i < |s| :: Upper(s)[i] == UpperChar(s[i])
    decreases |s|
  {
    if s != "" { UpperAt(s[1..]); }
  }

  lemma UpperExactly(a: string, b: string)
    ensures Upper(a) == Upper(b) <==> SameCurrency(a, b)
  {
    UpperAt(a);
    UpperAt(b);
    hide Upper, UpperChar;
    if Upper(a) == Upper(b) {
      assert forall i | 0 <= i < |a| :: UpperChar(a[i]) == Upper(a)[i] && UpperChar(b[i]) == Upper(b)[i];
    }
  }

  /** One more payment: its amount is received when it is not voided and in the currency due, whatever the case of the
      letters, and verified when it is that too; in another currency it is only counted. */
  lemma OnePaymentMore(due: Option<int>, dueCurrency: string, payments: seq<Payment>, p: Payment)
    ensures var (r, s) := (Reconciled(due, dueCurrency, payments), Reconciled(due, dueCurrency, payments + [p]));
            var cents := if p.cents.Some? then p.cents.value else 0;
            var counted := p.status != Voided && SameCurrency(p.currency, dueCurrency);
            && s.receivedCents == r.receivedCents + (if counted then cents else 0)
            && s.verifiedCents == r.verifiedCents + (if counted && p.status == Verified then cents else 0)
            && s.otherCurrencyCount == r.otherCurrencyCount + (if p.status != Voided && !SameCurrency(p.currency, dueCurrency) then 1 else 0)
  {
    assert (payments + [p])[..|payments|] == payments;
    UpperExactly(p.currency, dueCurrency);
    hide Upper, SameCurrency;
  }

  lemma NoPayments(due: Option<int>, dueCurrency: string)
    ensures var r := Reconciled(due, dueCurrency, []); r.receivedCents == 0 && r.verifiedCents == 0 && r.otherCurrencyCount == 0
  {
  }

  /** The balance in words: paid is the due exactly, overpaid is more, partial is less but not nothing. */
  lemma StateExactly(due: Option<int>, dueCurrency: string, payments: seq<Payment>)
    ensures var r := Reconciled(due, dueCurrency, payments);
            && r.dueCents == due && SameCurrency(r.currency, dueCurrency)
            && (due.None? ==> r.state == NoTarget && r.differenceCents == None)
            && (due.Some? ==>
                  && r.differenceCents == Some(r.receivedCents - due.value)
                  && (r.state == Unpaid <==> r.receivedCents == 0)
                  && (r.state == Paid <==> r.receivedCents != 0 && r.receivedCents == due.value)
                  && (r.state == Overpaid <==> r.receivedCents != 0 && r.receivedCents > due.value)
                  && (r.state == Partial <==> r.receivedCents != 0 && r.receivedCents < due.value))
  {
    UpperAt(dueCurrency);
    UpperAt(Upper(dueCurrency));
    hide Sum, Upper;
  }

  // ---- Order does not matter -------------------------------------------------------------

  lemma {:induction false} SumAppend(a: seq<Payment>, b: seq<Payment>, weight: Payment -> int)
    ensures Sum(a + b, weight) == Sum(a, weight) + Sum(b, weight)
    decreases |b|
  {
    if b == [] {
      assert a + b == a;
    } else {
      SumAppend(a, b[..|b| - 1], weight);
      assert (a + b)[..|a + b| - 1] == a + b[..|b| - 1];
    }
  }

  /** An element may be taken out of the middle. */
  lemma {:induction false} SumWithout(s: seq<Payment>, k: nat, weight: Payment -> int)
    requires k < |s|
    ensures Sum(s, weight) == Sum(s[..k] + s[k + 1..], weight) + weight(s[k])
  {
    assert s == s[..k] + [s[k]] + s[k + 1..];
    SumAppend(s[..k], [s[k]], weight);
    SumAppend(s[..k] + [s[k]], s[k + 1..], weight);
    SumAppend(s[..k], s[k + 1..], weight);
    SumOne(s[k], weight);
  }

  lemma MembersWithout(s: seq<Payment>, k: nat)
    requires k < |s|
    ensures multiset(s[..k] + s[k + 1..]) == multiset(s) - multiset{s[k]}
  {
    assert s == s[..k] + [s[k]] + s[k + 1..];
  }

  /** Taking one occurrence of the same element out of two lists with the same members. */
  lemma MatchingElement(a: seq<Payment>, b: seq<Payment>) returns (k: nat)
    requires a != [] && multiset(a) == multiset(b)
    ensures k < |b| && b[k] == a[0]
    ensures multiset(a[..0] + a[1..]) == multiset(b[..k] + b[k + 1..])
  {
    assert a[0] in multiset(b);
    k :| k < |b| && b[k] == a[0];
    MembersWithout(a, 0);
    MembersWithout(b, k);
  }

  lemma {:induction false} SumPermuted(a: seq<Payment>, b: seq<Payment>, weight: Payment -> int)
    requires multiset(a) == multiset(b)
    ensures Sum(a, weight) == Sum(b, weight)
    decreases |a|
  {
    if a == [] {
      assert |b| == |multiset(b)| == 0;
    } else {
      var k := MatchingElement(a, b);
      hide Sum;
      SumWithout(a, 0, weight);
      SumWithout(b, k, weight);
      SumPermuted(a[..0] + a[1..], b[..k] + b[k + 1..], weight);
    }
  }

  lemma SumOne(p: Payment, weight: Payment -> int)
    ensures Sum([p], weight) == weight(p)
  {
    assert [p][..0] == [];
  }

  /** The balance depends on which payments there are, not on the order they are read in. */
  lemma ReconcileOrderBlind(due: Option<int>, dueCurrency: string, a: seq<Payment>, b: seq<Payment>)
    requires multiset(a) == multiset(b)
    ensures Reconciled(due, dueCurrency, a) == Reconciled(due, dueCurrency, b)
  {
    var currency := Upper(dueCurrency);
    SumPermuted(a, b, Received(currency));
    SumPermuted(a, b, VerifiedOnly(currency));
    SumPermuted(a, b, OtherCurrency(currency));
  }

  // ---- Conservation ----------------------------------------------------------------------

  /** The amount of a payment that is not voided. */
  function Live(p: Payment): int {
    if p.status != Voided then p.cents.GetOr(0) else 0
  }

  function OneEach(): Payment -> int {
    (p: Payment) => if p.status != Voided then 1 else 0
  }

  function CountIn(currency: string): Payment -> int {
    (p: Payment) => if In(p, currency) then 1 else 0
  }

  function TotalReceived(currencies: seq<string>, payments: seq<Payment>): int {
    if currencies == [] then 0
    else Reconciled(None, currencies[0], payments).receivedCents + TotalReceived(currencies[1..], payments)
  }

  lemma {:induction false} SumsAddUp(payments: seq<Payment>, f: Payment -> int, g: Payment -> int, h: Payment -> int)
    requires forall p :: f(p) == g(p) + h(p)
    ensures Sum(payments, f) == Sum(payments, g) + Sum(payments, h)
    decreases |payments|
  {
    if payments != [] { SumsAddUp(payments[..|payments| - 1], f, g, h); }
  }

  /** A payment that is not voided is either in the currency due or counted as elsewhere, never both. */
  lemma {:induction false} SplitByCurrency(due: Option<int>, dueCurrency: string, payments: seq<Payment>)
    ensures Sum(payments, OneEach()) ==
      Sum(payments, CountIn(Upper(dueCurrency))) + Reconciled(due, dueCurrency, payments).otherCurrencyCount
  {
    SumsAddUp(payments, OneEach(), CountIn(Upper(dueCurrency)), OtherCurrency(Upper(dueCurrency)));
  }

  ghost predicate Distinct(currencies: seq<string>) {
    forall i, j | 0 <= i < j < |currencies| :: Upper(currencies[i]) != Upper(currencies[j])
  }

  predicate Covered(currencies: seq<string>, p: Payment) {
    exists i | 0 <= i < |currencies| :: Upper(currencies[i]) == Upper(p.currency)
  }

  /** Live amounts in one of these currencies. */
  function LiveIn(currencies: seq<string>): Payment -> int {
    (p: Payment) => if Covered(currencies, p) then Live(p) else 0
  }

  /** Reconciling once in each currency shares out every live amount exactly once. */
  lemma {:induction false} CurrenciesShareOut(currencies: seq<string>, payments: seq<Payment>)
    requires Distinct(currencies)
    ensures TotalReceived(currencies, payments) == Sum(payments, LiveIn(currencies))
    decreases |currencies|
  {
    if currencies == [] {
      forall p ensures LiveIn(currencies)(p) == 0 {
        assert !Covered(currencies, p);
      }
      SumZero(payments, LiveIn(currencies));
    } else {
      CurrenciesShareOut(currencies[1..], payments);
      forall p ensures LiveIn(currencies)(p) == Received(Upper(currencies[0]))(p) + LiveIn(currencies[1..])(p) {
        CoveredCons(currencies, p);
        assert In(p, Upper(currencies[0])) <==> p.status != Voided && Upper(p.currency) == Upper(currencies[0]);
      }
      SumsAddUp(payments, LiveIn(currencies), Received(Upper(currencies[0])), LiveIn(currencies[1..]));
    }
  }

  lemma CoveredCons(currencies: seq<string>, p: Payment)
    requires currencies != [] && Distinct(currencies)
    ensures Covered(currencies, p) <==> Upper(p.currency) == Upper(currencies[0]) || Covered(currencies[1..], p)
    ensures !(Upper(p.currency) == Upper(currencies[0]) && Covered(currencies[1..], p))
  {
    if Covered(currencies[1..], p) {
      var i :| 0 <= i < |currencies[1..]| && Upper(currencies[1..][i]) == Upper(p.currency);
      assert currencies[i + 1] == currencies[1..][i];
    }
    if Covered(currencies, p) && Upper(p.currency) != Upper(currencies[0]) {
      var i :| 0 <= i < |currencies| && Upper(currencies[i]) == Upper(p.currency);
      assert currencies[1..][i - 1] == currencies[i];
    }
  }

  lemma {:induction false} SumZero(payments: seq<Payment>, weight: Payment -> int)
    requires forall p :: weight(p) == 0
    ensures Sum(payments, weight) == 0
    decreases |payments|
  {
    if payments != [] { SumZero(payments[..|payments| - 1], weight); }
  }

  // ---- The other rule ----------------------------------------------------------------------

  datatype OrderStatus = OrderPaid | OrderPartial | OrderUnpaid

  function OrderPaymentStatus(paidCents: int, totalCents: Option<int>): OrderStatus {
    if totalCents.None? then (if paidCents > 0 then OrderPaid else OrderUnpaid)
    else if paidCents >= totalCents.value then OrderPaid
    else if paidCents > 0 then OrderPartial
    else OrderUnpaid
  }

  /** Paid is the whole total and more, or anything when there is no total; nothing paid, or less, is unpaid. */
  lemma OrderStatusExactly(paidCents: int, totalCents: Option<int>)
    ensures var status := OrderPaymentStatus(paidCents, totalCents);
            && (status == OrderPaid <==> if totalCents.Some? then totalCents.value <= paidCents else 0 < paidCents)
            && (status == OrderPartial <==> totalCents.Some? && 0 < paidCents < totalCents.value)
  {
  }

  predicate SameVerdict(state: BalanceState, status: OrderStatus) {
    match status
    case OrderPaid => state == Paid || state == Overpaid
    case OrderPartial => state == Partial
    case OrderUnpaid => state == Unpaid
  }

  /** The two rules agree unless nothing is due and nothing came, or a negative sum short of the due came. */
  lemma RulesAgreeExactly(due: int, dueCurrency: string, payments: seq<Payment>)
    ensures var r := Reconciled(Some(due), dueCurrency, payments);
            SameVerdict(r.state, OrderPaymentStatus(r.receivedCents, Some(due))) <==>
              (r.receivedCents == 0 ==> due > 0) && (r.receivedCents < 0 ==> r.receivedCents >= due)
  {
    hide Sum;
  }

  predicate NoNegatives(payments: seq<Payment>) {
    forall p | p in payments :: p.cents.GetOr(0) >= 0
  }

  /** With something due and no negative amount, they always agree. */
  lemma RulesAgree(due: int, dueCurrency: string, payments: seq<Payment>)
    requires due > 0 && NoNegatives(payments)
    ensures var r := Reconciled(Some(due), dueCurrency, payments);
            SameVerdict(r.state, OrderPaymentStatus(r.receivedCents, Some(due)))
  {
    SumNonNegative(payments, Received(Upper(dueCurrency)));
    RulesAgreeExactly(due, dueCurrency, payments);
  }

  lemma {:induction false} SumNonNegative(payments: seq<Payment>, weight: Payment -> int)
    requires forall p | p in payments :: weight(p) >= 0
    ensures Sum(payments, weight) >= 0
    decreases |payments|
  {
    if payments != [] { SumNonNegative(payments[..|payments| - 1], weight); }
  }

  /** A refund entered as a negative payment: part paid by one rule, unpaid by the other. */
  lemma NegativeDisagrees()
    ensures var r := Reconciled(Some(100), "mxn", [Payment(Some(-5), "MXN", Recorded)]);
            r.state == Partial && OrderPaymentStatus(r.receivedCents, Some(100)) == OrderUnpaid
  {
    var p := Payment(Some(-5), "MXN", Recorded);
    UpperMxn();
    SumOne(p, Received(Upper("mxn")));
  }

  lemma UpperMxn()
    ensures Upper("mxn") == "MXN" && Upper("MXN") == "MXN"
  {
    assert "mxn"[1..] == "xn" && "xn"[1..] == "n" && "n"[1..] == "";
    assert "MXN"[1..] == "XN" && "XN"[1..] == "N" && "N"[1..] == "";
    assert Upper("") == "";
    assert Upper("n") == "N" && Upper("N") == "N";
    assert Upper("xn") == "XN" && Upper("XN") == "XN";
  }
}
