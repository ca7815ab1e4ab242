/** Who may receive a campaign message, and why not. */
module SendGate {
  import opened Options
  import opened CanonicalJson
  import opened ConsentStates

  datatype Contact = Contact(marketingConsent: bool, email: Option<string>, phone: Option<string>, deleted: bool)

  datatype Lead = Lead(unsubscribed: bool)

  /** The consent record's status, if any, and the matching suppression entries. */
  datatype ConsentGate = ConsentGate(status: Option<Status>, suppressionReasons: seq<string>)

  datatype Reason =
    | SuppressedAddress
    | ContactDeleted
    | ConsentRevoked
    | ConsentPending
    | MarketingConsentMissing
    | LeadUnsubscribed
    | EmailMissing
    | PhoneMissing

  const EMAIL: Text := [0x65, 0x6D, 0x61, 0x69, 0x6C]
  const SMS: Text := [0x73, 0x6D, 0x73]
  const PHONE: Text := [0x70, 0x68, 0x6F, 0x6E, 0x65]
  const WHATSAPP: Text := [0x77, 0x68, 0x61, 0x74, 0x73, 0x61, 0x70, 0x70]

  /** Lower case of the letters A to Z, the ones the channel names are made of. */
  function LowerCase(t: Text): Text {
    seq(|t|, i requires 0 <= i < |t| => if 0x41 <= t[i] <= 0x5A then t[i] + 0x20 else t[i])
  }

  /** A text counts only when it is there and not empty. */
  predicate Present<T>(text: Option<seq<T>>) {
    text.Some? && |text.value| > 0
  }

  function ConsentChannelFor(channel: Text): Channel {
    var normalized := LowerCase(channel);
    if normalized == SMS || normalized == PHONE then Sms
    else if normalized == WHATSAPP then WhatsApp
    else Email
  }

  predicate AnyUnsubscribed(leads: seq<Lead>) {
    exists i | 0 <= i < |leads| :: leads[i].unsubscribed
  }

  /** When each reason applies. */
  predicate Applies(reason: Reason, contact: Contact, leads: seq<Lead>, normalized: Text, gate: Option<ConsentGate>) {
    match reason
    case SuppressedAddress => gate.Some? && gate.value.suppressionReasons != []
    case ContactDeleted => contact.deleted
    case ConsentRevoked => gate.Some? && gate.value.status == Some(Revoked)
    case ConsentPending => gate.Some? && gate.value.status == Some(PendingDoubleOptIn)
    case MarketingConsentMissing => (gate.None? || gate.value.status.None?) && !contact.marketingConsent
    case LeadUnsubscribed => AnyUnsubscribed(leads)
    case EmailMissing => normalized == EMAIL && !Present(contact.email)
    case PhoneMissing => (normalized == SMS || normalized == PHONE) && !Present(contact.phone)
  }

  function Listed(reason: Reason, contact: Contact, leads: seq<Lead>, normalized: Text, gate: Option<ConsentGate>): seq<Reason> {
    if Applies(reason, contact, leads, normalized, gate) then [reason] else []
  }

  /** The reasons that do not depend on the channel's address. */
  function ConsentReasons(contact: Contact, leads: seq<Lead>, normalized: Text, gate: Option<ConsentGate>): seq<Reason> {
    Listed(SuppressedAddress, contact, leads, normalized, gate) +
    Listed(ContactDeleted, contact, leads, normalized, gate) +
    Listed(ConsentRevoked, contact, leads, normalized, gate) +
    Listed(ConsentPending, contact, leads, normalized, gate) +
    Listed(MarketingConsentMissing, contact, leads, normalized, gate) +
    Listed(LeadUnsubscribed, contact, leads, normalized, gate)
  }

  /** Every reason that applies, in the order they are reported. */
  function Reasons(contact: Contact, leads: seq<Lead>, channel: Text, gate: Option<ConsentGate>): seq<Reason> {
    var normalized := LowerCase(channel);
    ConsentReasons(contact, leads, normalized, gate) +
    Listed(EmailMissing, contact, leads, normalized, gate) +
    Listed(PhoneMissing, contact, leads, normalized, gate)
  }

  /** The checks made before the channel's address is looked at. */
  method EvaluateConsent(contact: Contact, leads: seq<Lead>, normalized: Text, gate: Option<ConsentGate>)
    returns (reasons: seq<Reason>)
    ensures reasons == ConsentReasons(contact, leads, normalized, gate)
  {
    reasons := [];
    if gate.Some? && |gate.value.suppressionReasons| > 0 {
      reasons := reasons + [SuppressedAddress];
    }
    assert reasons == Listed(SuppressedAddress, contact, leads, normalized, gate);
    ghost var before := reasons;
    if contact.deleted {
      reasons := reasons + [ContactDeleted];
    }
    assert reasons == before + Listed(ContactDeleted, contact, leads, normalized, gate);
    before := reasons;
    if gate.Some? && gate.value.status.Some? {
      if gate.value.status.value == Revoked {
        reasons := reasons + [ConsentRevoked];
      } else if gate.value.status.value == PendingDoubleOptIn {
        reasons := reasons + [ConsentPending];
      }
    } else if !contact.marketingConsent {
      reasons := reasons + [MarketingConsentMissing];
    }
    assert reasons == before + Listed(ConsentRevoked, contact, leads, normalized, gate)
                             + Listed(ConsentPending, contact, leads, normalized, gate)
                             + Listed(MarketingConsentMissing, contact, leads, normalized, gate);
    if AnyUnsubscribed(leads) {
      reasons := reasons + [LeadUnsubscribed];
    }
  }

  method EvaluateContactEligibility(contact: Contact, leads: seq<Lead>, channel: Text, gate: Option<ConsentGate>)
    returns (eligible: bool, reasons: seq<Reason>, normalized: Text)
    ensures reasons == Reasons(contact, leads, channel, gate)
    ensures eligible <==> reasons == []
    ensures normalized == LowerCase(channel)
  {
    normalized := LowerCase(channel);
    reasons := EvaluateConsent(contact, leads, normalized, gate);
    if normalized == EMAIL && !Present(contact.email) {
      reasons := reasons + [EmailMissing];
    }
    if (normalized == SMS || normalized == PHONE) && !Present(contact.phone) {
      reasons := reasons + [PhoneMissing];
    }
    eligible := |reasons| == 0;
  }

  /** The ledger's consent for this channel, or the old flag when it has none. */
  predicate Consented(contact: Contact, gate: Option<ConsentGate>) {
    if gate.Some? && gate.value.status.Some? then gate.value.status.value == Granted
    else contact.marketingConsent
  }

  predicate NotSuppressed(gate: Option<ConsentGate>) {
    gate.None? || gate.value.suppressionReasons == []
  }

  predicate Reachable(contact: Contact, channel: Text) {
    && (LowerCase(channel) == EMAIL ==> Present(contact.email))
    && (LowerCase(channel) in {SMS, PHONE} ==> Present(contact.phone))
  }

  /** The list is empty exactly when nothing applies. */
  lemma NoReasons(contact: Contact, leads: seq<Lead>, channel: Text, gate: Option<ConsentGate>)
    ensures var normalized := LowerCase(channel);
            Reasons(contact, leads, channel, gate) == [] <==>
              && !Applies(SuppressedAddress, contact, leads, normalized, gate)
              && !Applies(ContactDeleted, contact, leads, normalized, gate)
              && !Applies(ConsentRevoked, contact, leads, normalized, gate)
              && !Applies(ConsentPending, contact, leads, normalized, gate)
              && !Applies(MarketingConsentMissing, contact, leads, normalized, gate)
              && !Applies(LeadUnsubscribed, contact, leads, normalized, gate)
              && !Applies(EmailMissing, contact, leads, normalized, gate)
              && !Applies(PhoneMissing, contact, leads, normalized, gate)
  {
    hide LowerCase, Applies;
  }

  /** A contact is eligible exactly when no rule speaks against the send. */
  lemma EligibleExactly(contact: Contact, leads: seq<Lead>, channel: Text, gate: Option<ConsentGate>)
    ensures Reasons(contact, leads, channel, gate) == [] <==>
              && NotSuppressed(gate)
              && !contact.deleted
              && Consented(contact, gate)
              && !AnyUnsubscribed(leads)
              && Reachable(contact, channel)
  {
    NoReasons(contact, leads, channel, gate);
    hide LowerCase, Reasons, AnyUnsubscribed;
  }
}
