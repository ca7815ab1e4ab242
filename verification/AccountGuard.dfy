/** The guard that keeps full account numbers out of payment evidence. */
module AccountGuard {
  import opened Options
  import opened DigitRuns
  import opened CheckDigits

  /** What a record field can hold. */
  datatype FieldValue = Absent | Text(text: string) | NotText

  datatype Field =
    | OriginAccountLast4 | DestinationAccountLast4
    | Reference | Notes | BeneficiaryName | BankName | OperationType
    | Folio | TrackingKey

  datatype ViolationReason = FullAccountNumber | Last4Format

  datatype Violation = Violation(field: Field, reason: ViolationReason)

  type Record = Field -> FieldValue

  const LAST4_FIELDS := [OriginAccountLast4, DestinationAccountLast4]
  const FREE_TEXT_FIELDS := [Reference, Notes, BeneficiaryName, BankName, OperationType]
  const IDENTIFIER_FIELDS := [Folio, TrackingKey]

  predicate AllDigits(s: string) {
    forall i | 0 <= i < |s| :: IsDigit(s[i])
  }

  function DigitValues(s: string): seq<Digit>
    requires AllDigits(s)
  {
    seq(|s|, i requires 0 <= i < |s| => (s[i] as int - '0' as int))
  }

  predicate IsLast4(s: string) {
    |s| == 4 && AllDigits(s)
  }

  function WithoutSeparators(s: string): string {
    if s == "" then "" else (if IsSeparator(s[0]) then "" else [s[0]]) + WithoutSeparators(s[1..])
  }

  /** A CLABE with a valid check digit, or 13 to 19 digits (not 18) that pass Luhn. */
  predicate LooksLikeCardOrClabe(s: string) {
    var digits := WithoutSeparators(s);
    && digits != ""
    && AllDigits(digits)
    && (if |digits| == CLABE_LENGTH then ClabeValid(DigitValues(digits))
        else 13 <= |digits| <= 19 && LuhnValid(DigitValues(digits)))
  }

  /** Spaces and hyphens go and nothing else does. */
  lemma WithoutSeparatorsOf(c: char, t: string)
    ensures WithoutSeparators("") == ""
    ensures WithoutSeparators([c] + t) == (if c == ' ' || c == '-' then "" else [c]) + WithoutSeparators(t)
  {
    assert ([c] + t)[1..] == t;
  }

  /** Thirteen to nineteen digits are held to be a card's and must not pass Luhn, but eighteen a CLABE's. */
  lemma CardLengths(s: string)
    requires AllDigits(WithoutSeparators(s))
    ensures var digits := WithoutSeparators(s);
            LooksLikeCardOrClabe(s) <==>
              || (|digits| == 18 && ClabeValid(DigitValues(digits)))
              || (|digits| in {13, 14, 15, 16, 17, 19} && LuhnValid(DigitValues(digits)))
  {
    hide ClabeValid, LuhnValid;
  }

  method CheckCardOrClabe(value: string) returns (found: bool)
    ensures found <==> LooksLikeCardOrClabe(value)
  {
    if |value| == 0 {
      return false;
    }
    var digits := WithoutSeparators(value);
    if |digits| == 0 || !AllDigits(digits) {
      return false;
    }
    if |digits| == CLABE_LENGTH {
      found := IsClabe(DigitValues(digits));
    } else if 13 <= |digits| <= 19 {
      found := IsLuhnValid(DigitValues(digits));
    } else {
      found := false;
    }
  }

  /** The rule each field has to meet. */
  predicate Violates(field: Field, value: FieldValue) {
    match field
    case OriginAccountLast4 => value.NotText? || (value.Text? && !IsLast4(value.text))
    case DestinationAccountLast4 => value.NotText? || (value.Text? && !IsLast4(value.text))
    case Folio => value.Text? && LooksLikeCardOrClabe(value.text)
    case TrackingKey => value.Text? && LooksLikeCardOrClabe(value.text)
    case _ => value.Text? && HasLongDigitRun(value.text)
  }

  function ReasonFor(field: Field): ViolationReason {
    if field == OriginAccountLast4 || field == DestinationAccountLast4 then Last4Format else FullAccountNumber
  }

  /** The violations of the listed fields, in their order. */
  function ViolationsIn(fields: seq<Field>, record: Record): seq<Violation> {
    if fields == [] then []
    else
      ViolationsIn(fields[..|fields| - 1], record) +
      (var field := fields[|fields| - 1];
       if Violates(field, record(field)) then [Violation(field, ReasonFor(field))] else [])
  }

  method CheckLast4Fields(record: Record) returns (violations: seq<Violation>)
    ensures violations == ViolationsIn(LAST4_FIELDS, record)
  {
    violations := [];
    for i := 0 to |LAST4_FIELDS|
      invariant violations == ViolationsIn(LAST4_FIELDS[..i], record)
    {
      var value := record(LAST4_FIELDS[i]);
      if !value.Absent? && !(value.Text? && IsLast4(value.text)) {
        violations := violations + [Violation(LAST4_FIELDS[i], Last4Format)];
      }
      assert LAST4_FIELDS[..i + 1][..i] == LAST4_FIELDS[..i];
    }
    assert LAST4_FIELDS[..|LAST4_FIELDS|] == LAST4_FIELDS;
  }

  method CheckFreeTextFields(record: Record) returns (violations: seq<Violation>)
    ensures violations == ViolationsIn(FREE_TEXT_FIELDS, record)
  {
    hide HasLongDigitRun;
    violations := [];
    for i := 0 to |FREE_TEXT_FIELDS|
      invariant violations == ViolationsIn(FREE_TEXT_FIELDS[..i], record)
    {
      var value := record(FREE_TEXT_FIELDS[i]);
      if value.Text? && HasLongDigitRun(value.text) {
        violations := violations + [Violation(FREE_TEXT_FIELDS[i], FullAccountNumber)];
      }
      assert FREE_TEXT_FIELDS[..i + 1][..i] == FREE_TEXT_FIELDS[..i];
    }
    assert FREE_TEXT_FIELDS[..|FREE_TEXT_FIELDS|] == FREE_TEXT_FIELDS;
  }

  method CheckIdentifierFields(record: Record) returns (violations: seq<Violation>)
    ensures violations == ViolationsIn(IDENTIFIER_FIELDS, record)
  {
    hide LooksLikeCardOrClabe;
    violations := [];
    for i := 0 to |IDENTIFIER_FIELDS|
      invariant violations == ViolationsIn(IDENTIFIER_FIELDS[..i], record)
    {
      var value := record(IDENTIFIER_FIELDS[i]);
      if value.Text? {
        var found := CheckCardOrClabe(value.text);
        if found {
          violations := violations + [Violation(IDENTIFIER_FIELDS[i], FullAccountNumber)];
        }
      }
      assert IDENTIFIER_FIELDS[..i + 1][..i] == IDENTIFIER_FIELDS[..i];
    }
    assert IDENTIFIER_FIELDS[..|IDENTIFIER_FIELDS|] == IDENTIFIER_FIELDS;
  }

  /** What the guard is for: last-four fields hold four digits, free text no run of ten linked ones, and an identifier
      is no card or CLABE number. */
  ghost predicate Breaks(record: Record, v: Violation) {
    var value := record(v.field);
    match v.field
    case OriginAccountLast4 => v.reason == Last4Format && !FourDigits(value)
    case DestinationAccountLast4 => v.reason == Last4Format && !FourDigits(value)
    case Folio => v.reason == FullAccountNumber && value.Text? && LooksLikeCardOrClabe(value.text)
    case TrackingKey => v.reason == FullAccountNumber && value.Text? && LooksLikeCardOrClabe(value.text)
    case _ => v.reason == FullAccountNumber && value.Text? && ContainsLongRun(value.text)
  }

  predicate FourDigits(value: FieldValue) {
    value.Absent? || (value.Text? && |value.text| == 4 && forall i | 0 <= i < 4 :: '0' <= value.text[i] <= '9')
  }

  lemma FieldGroups(field: Field)
    ensures field in LAST4_FIELDS <==> field in {OriginAccountLast4, DestinationAccountLast4}
    ensures field in FREE_TEXT_FIELDS <==> field in {Reference, Notes, BeneficiaryName, BankName, OperationType}
    ensures field in IDENTIFIER_FIELDS <==> field in {Folio, TrackingKey}
  {
  }

  lemma BreaksExactly(record: Record, v: Violation)
    ensures v in ViolationsIn(LAST4_FIELDS, record) + ViolationsIn(FREE_TEXT_FIELDS, record) + ViolationsIn(IDENTIFIER_FIELDS, record)
            <==> Breaks(record, v)
  {
    ViolationsExact(LAST4_FIELDS, record, v);
    ViolationsExact(FREE_TEXT_FIELDS, record, v);
    ViolationsExact(IDENTIFIER_FIELDS, record, v);
    if record(v.field).Text? { ScannerExact(record(v.field).text); }
    FieldGroups(v.field);
    hide ViolationsIn, LooksLikeCardOrClabe, HasLongDigitRun, ContainsLongRun;
  }

  method FindAccountViolations(record: Record) returns (violations: seq<Violation>)
    ensures forall v :: v in violations <==> Breaks(record, v)
    ensures violations == ViolationsIn(LAST4_FIELDS, record) + ViolationsIn(FREE_TEXT_FIELDS, record)
                        + ViolationsIn(IDENTIFIER_FIELDS, record)
  {
    hide ViolationsIn, Breaks;
    var last4 := CheckLast4Fields(record);
    var freeText := CheckFreeTextFields(record);
    var identifiers := CheckIdentifierFields(record);
    violations := last4 + freeText + identifiers;
    forall v ensures v in violations <==> Breaks(record, v) {
      BreaksExactly(record, v);
    }
  }

  /** A card number as a folio or tracking key, in groups or not, is refused. */
  lemma CardIsRefused(record: Record, field: Field, payload: seq<Digit>, text: string)
    requires field in {Folio, TrackingKey} && record(field) == Text(text) && |payload| == 15
    requires AllDigits(WithoutSeparators(text))
    requires DigitValues(WithoutSeparators(text)) == payload + [(10 - LuhnSum(payload + [0]) % 10) % 10]
    ensures Breaks(record, Violation(field, FullAccountNumber))
  {
    LuhnCheckDigit(payload, (10 - LuhnSum(payload + [0]) % 10) % 10);
    hide LuhnValid, LuhnSum, ClabeValid;
    CardLengths(text);
  }

  /** A violation is listed exactly for each field that breaks its rule. */
  lemma {:induction false} ViolationsExact(fields: seq<Field>, record: Record, v: Violation)
    ensures v in ViolationsIn(fields, record) <==>
              v.field in fields && Violates(v.field, record(v.field)) && v.reason == ReasonFor(v.field)
  {
    if fields != [] {
      var n := |fields| - 1;
      ViolationsExact(fields[..n], record, v);
      assert fields == fields[..n] + [fields[n]];
    }
  }

  /** A free-text field passed through the mask never violates the guard, whatever it held. */
  lemma MaskedTextPasses(field: Field, text: string)
    requires field in FREE_TEXT_FIELDS
    ensures !Violates(field, Text(MaskLongDigitRuns(text)))
    ensures Violates(field, Text(text)) <==> ContainsLongRun(text)
  {
    MaskedHasNoLongRun(text);
    ScannerExact(text);
  }
}
