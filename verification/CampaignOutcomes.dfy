/** What each call on a campaign answers and leaves behind, said of the rows themselves; and that an approved
    campaign can be sent. */
module CampaignOutcomes {
  import opened Options
  import opened ConsentStates
  import opened CanonicalJson
  import opened CampaignPayload
  import opened SendGate
  import opened CampaignAuthorization
  import opened Trimming

  // ---- Requesting and deciding -----------------------------------------------------------

  /** The campaign has a draft variant. */
  ghost predicate HasVariant(s: Store, campaignId: Text) {
    exists row | row in s.variants :: row.campaignId == campaignId
  }

  lemma NothingLoaded(s: Store, campaignId: Text)
    ensures LoadVariants(s.variants, campaignId) == [] <==> !HasVariant(s, campaignId)
  {
    LoadVariantsSorts(s.variants, campaignId);
    var (loaded, rows) := (LoadVariants(s.variants, campaignId), RowsOf(s.variants, campaignId));
    if row :| row in s.variants && row.campaignId == campaignId {
      RowsOfMembers(s.variants, campaignId, row);
      assert row in multiset(loaded);
    }
    if loaded != [] {
      assert loaded[0] in multiset(rows);
      RowsOfMembers(s.variants, campaignId, loaded[0]);
    }
  }

  /** A row of the table after a new request of the campaign: its waiting rows are superseded, all else stays. */
  ghost predicate SupersededRow(before: Authorization, after: Authorization, campaignId: Text) {
    if before.campaignId == campaignId && before.status == Pending
    then after.status == Superseded && after.(status := Pending) == before
    else after == before
  }

  /** The new row waits for a decision on the campaign as it is. */
  ghost predicate FreshRequest(s: Store, row: Authorization, campaignId: Text, requestedBy: Text, hashOf: Payload -> Digest)
    requires campaignId in s.campaigns
  {
    && row.campaignId == campaignId && row.status == Pending && row.requestedBy == requestedBy
    && row.decidedBy == None && row.decidedVia == None && row.decisionNote == None && row.decidedAt == None
    && Shows(row.snapshot, s.campaigns[campaignId], LoadVariants(s.variants, campaignId), s.sender)
    && row.payloadHash == hashOf(row.snapshot)
  }

  ghost predicate AfterRequest(s: Store, t: Store, campaignId: Text, requestedBy: Text, hashOf: Payload -> Digest) {
    && campaignId in s.campaigns
    && t == s.(authorizations := t.authorizations)
    && |t.authorizations| == |s.authorizations| + 1
    && (forall i | 0 <= i < |s.authorizations| :: SupersededRow(s.authorizations[i], t.authorizations[i], campaignId))
    && FreshRequest(s, t.authorizations[|s.authorizations|], campaignId, requestedBy, hashOf)
  }

  lemma RequestOutcome(s: Store, campaignId: Text, requestedBy: Text, hashOf: Payload -> Digest)
    ensures match Request(s, campaignId, requestedBy, hashOf)
            case Ok(t) => HasVariant(s, campaignId) && AfterRequest(s, t, campaignId, requestedBy, hashOf)
            case Err(e) =>
              || (e == CampaignMissing && campaignId !in s.campaigns)
              || (e == NothingToReview && campaignId in s.campaigns && !HasVariant(s, campaignId))
  {
    NothingLoaded(s, campaignId);
    if Request(s, campaignId, requestedBy, hashOf).Ok? {
      PayloadShows(CurrentPayload(s, campaignId), s.campaigns[campaignId], LoadVariants(s.variants, campaignId), s.sender);
    }
    hide LoadVariants, BuildPayload, HasVariant, Shows;
  }

  /** The status of one campaign, when there is one, is all that changes. */
  ghost predicate Restatused(s: Store, t: Store, campaignId: Text, status: CampaignStatus) {
    && t.campaigns.Keys == s.campaigns.Keys
    && forall id | id in s.campaigns ::
         t.campaigns[id] == if id == campaignId then s.campaigns[id].(status := status) else s.campaigns[id]
  }

  ghost predicate AfterDecision(s: Store, t: Store, id: nat, decision: Decision, actor: Text, via: Text, note: Option<Text>, at: nat)
    requires id < |s.authorizations|
  {
    && t.variants == s.variants && t.sender == s.sender && t.outbox == s.outbox && t.signals == s.signals
    && |t.authorizations| == |s.authorizations|
    && (forall i | 0 <= i < |s.authorizations| && i != id :: t.authorizations[i] == s.authorizations[i])
    && var (before, after) := (s.authorizations[id], t.authorizations[id]);
       && after.campaignId == before.campaignId && after.snapshot == before.snapshot
       && after.payloadHash == before.payloadHash && after.requestedBy == before.requestedBy
       && after.status == (if decision == Authorize then Authorized else Rejected)
       && after.decidedBy == Some(actor) && after.decidedVia == Some(via) && after.decidedAt == Some(at)
       && after.decisionNote == (if note.Some? then Some(Trim(note.value, BlankUnit)) else None)
       && if decision == Authorize then t.campaigns == s.campaigns else Restatused(s, t, before.campaignId, RejectedCampaign)
  }

  /** Why a decision is refused, in the order of the checks. */
  lemma DecideOutcome(s: Store, id: nat, decision: Decision, actor: Text, via: Text, note: Option<Text>, at: nat, hashOf: Payload -> Digest)
    requires Injective(hashOf) && CampaignAuthorization.Sound(s, hashOf)
    ensures var r := Decide(s, id, decision, actor, via, note, at, hashOf);
            if id >= |s.authorizations| then r == Err(AuthorizationMissing)
            else
              var row := s.authorizations[id];
              if row.status != Pending then r == Err(NotPending)
              else if decision == Reject && (note.None? || forall i | 0 <= i < |note.value| :: BlankUnit(note.value[i])) then r == Err(NoteRequired)
              else if decision == Authorize && row.campaignId !in s.campaigns then r == Err(CampaignMissing)
              else if decision == Authorize
                   && !Shows(row.snapshot, s.campaigns[row.campaignId], LoadVariants(s.variants, row.campaignId), s.sender) then r == Err(ContentChanged)
              else r.Ok? && AfterDecision(s, r.value, id, decision, actor, via, note, at)
  {
    hide LoadVariants, BuildPayload, CurrentPayload, Shows, Trim, BlankUnit, CampaignAuthorization.Sound, Injective;
    if id < |s.authorizations| {
      var row := s.authorizations[id];
      if note.Some? { TrimEmpty(note.value, BlankUnit); }
      if row.campaignId in s.campaigns { StillCurrent(s, id, hashOf); }
    }
  }

  /** The hashes agree exactly when the row's snapshot shows the campaign as it is. */
  lemma StillCurrent(s: Store, id: nat, hashOf: Payload -> Digest)
    requires Injective(hashOf) && CampaignAuthorization.Sound(s, hashOf)
    requires id < |s.authorizations| && s.authorizations[id].campaignId in s.campaigns
    ensures var row := s.authorizations[id];
            hashOf(CurrentPayload(s, row.campaignId)) == row.payloadHash <==>
              Shows(row.snapshot, s.campaigns[row.campaignId], LoadVariants(s.variants, row.campaignId), s.sender)
  {
    var row := s.authorizations[id];
    assert RowSound(row, hashOf);
    PayloadShows(row.snapshot, s.campaigns[row.campaignId], LoadVariants(s.variants, row.campaignId), s.sender);
    assert hashOf(CurrentPayload(s, row.campaignId)) == hashOf(row.snapshot) ==> CurrentPayload(s, row.campaignId) == row.snapshot;
    hide LoadVariants, BuildPayload, Shows;
  }

  /** Staff review. Approval is refused exactly where the commercial policy forbids it, and queues the owner's request
      where there is something to review. */
  lemma ReviewOutcome(s: Store, campaignId: Text, approve: bool, actor: Text, hashOf: Payload -> Digest)
    ensures var r := Review(s, campaignId, approve, actor, hashOf);
            if campaignId !in s.campaigns then r == Err(CampaignMissing)
            else if s.campaigns[campaignId].skuKey.GetOr([]) == [] then r == Err(NotAnImport)
            else if approve && !Ready(s.campaigns[campaignId]) then r == Err(GaBlocked)
            else
              && r.Ok?
              && Restatused(s, r.value, campaignId, if approve then Approved else RejectedCampaign)
              && r.value.outbox == s.outbox && r.value.signals == s.signals
              && (if approve && HasVariant(s, campaignId)
                  then AfterRequest(s.(campaigns := r.value.campaigns), r.value, campaignId, actor, hashOf)
                  else r.value.authorizations == s.authorizations)
  {
    hide Request, GaAllowed, Ready, FreshRequest, SupersededRow;
    if campaignId in s.campaigns {
      GaAllowedExactly(s.campaigns[campaignId]);
      var approved := s.(campaigns := SetStatus(s.campaigns, campaignId, Approved));
      RequestOutcome(approved, campaignId, actor, hashOf);
      assert HasVariant(approved, campaignId) == HasVariant(s, campaignId);
    }
    hide HasVariant;
  }

  // ---- The gate ----------------------------------------------------------------------------

  /** An authorized row of the campaign, and no authorized row of it was decided later. */
  ghost predicate LatestDecision(rows: seq<Authorization>, campaignId: Text, i: nat) {
    && i < |rows| && rows[i].campaignId == campaignId && rows[i].status == Authorized
    && forall j | 0 <= j < |rows| && rows[j].campaignId == campaignId && rows[j].status == Authorized ::
         rows[j].decidedAt.GetOr(0) <= rows[i].decidedAt.GetOr(0)
  }

  lemma LatestExactly(rows: seq<Authorization>, campaignId: Text, i: nat)
    ensures IsLatestAuthorized(rows, campaignId, i) <==> LatestDecision(rows, campaignId, i)
  {
    assert forall j | 0 <= j < |rows| ::
      IsAuthorizedFor(rows, campaignId, j) <==> rows[j].campaignId == campaignId && rows[j].status == Authorized;
  }

  ghost predicate NoneAuthorized(rows: seq<Authorization>, campaignId: Text) {
    forall i | 0 <= i < |rows| :: rows[i].campaignId != campaignId || rows[i].status != Authorized
  }

  lemma {:induction false} GateOutcome(s: Store, campaignId: Text, tie: nat, hashOf: Payload -> Digest)
    requires Injective(hashOf) && CampaignAuthorization.Sound(s, hashOf) && campaignId in s.campaigns
    ensures var r := Gate(s, campaignId, tie, hashOf);
            if NoneAuthorized(s.authorizations, campaignId) then r == Err(NoAuthorization)
            else exists i: nat | LatestDecision(s.authorizations, campaignId, i) ::
                   r == if Shows(s.authorizations[i].snapshot, s.campaigns[campaignId], LoadVariants(s.variants, campaignId), s.sender)
                        then Ok(i) else Err(ContentChanged)
  {
    GateExact(s, campaignId, tie, hashOf);
    var selected := SelectAuthorized(s.authorizations, campaignId, tie);
    if selected.Some? {
      var i := selected.value;
      LatestExactly(s.authorizations, campaignId, i);
      PayloadShows(s.authorizations[i].snapshot, s.campaigns[campaignId], LoadVariants(s.variants, campaignId), s.sender);
    } else {
      NoneExactly(s.authorizations, campaignId);
    }
    hide CampaignAuthorization.Sound, LoadVariants, BuildPayload, Shows, SelectAuthorized, IsLatestAuthorized, Injective;
  }

  lemma NoneExactly(rows: seq<Authorization>, campaignId: Text)
    requires forall i | 0 <= i < |rows| :: !IsAuthorizedFor(rows, campaignId, i)
    ensures NoneAuthorized(rows, campaignId)
  {
    assert forall i | 0 <= i < |rows| :: IsAuthorizedFor(rows, campaignId, i) <==> rows[i].campaignId == campaignId && rows[i].status == Authorized;
  }

  /** What is checked before the contact is looked at, each refusal where it applies and nowhere else. */
  lemma {:induction false} ClearOutcome(s: Store, campaignId: Text, tie: nat, hashOf: Payload -> Digest)
    requires Injective(hashOf) && CampaignAuthorization.Sound(s, hashOf)
    ensures var r := Clear(s, campaignId, tie, hashOf);
            if campaignId !in s.campaigns then r == Err(CampaignMissing)
            else
              var c := s.campaigns[campaignId];
              if c.skuKey.GetOr([]) == [] then r == Err(NotAnImport)
              else if c.status != Approved && c.status != Scheduled then r == Err(NotApproved)
              else if !Ready(c) then r == Err(GaBlocked)
              else if NoneAuthorized(s.authorizations, campaignId) then r == Err(NoAuthorization)
              else exists i: nat | LatestDecision(s.authorizations, campaignId, i) ::
                     r == if Shows(s.authorizations[i].snapshot, c, LoadVariants(s.variants, campaignId), s.sender) then Ok(i) else Err(ContentChanged)
  {
    if campaignId in s.campaigns {
      GaAllowedExactly(s.campaigns[campaignId]);
      GateOutcome(s, campaignId, tie, hashOf);
      hide Gate, GaAllowed, Ready, Shows, LatestDecision, NoneAuthorized, CampaignAuthorization.Sound, LoadVariants;
    }
  }

  // ---- Who may be written to ------------------------------------------------------------------

  predicate AnyCase(t: Text, word: string) {
    |t| == |word| && forall i | 0 <= i < |t| :: t[i] == word[i] as nat || ('a' <= word[i] <= 'z' && t[i] as int + 32 == word[i] as int)
  }

  lemma LowerCaseSpells(t: Text, u: Text, word: string)
    requires Spells(u, word) && forall i | 0 <= i < |word| :: 'a' <= word[i] <= 'z'
    ensures LowerCase(t) == u <==> AnyCase(t, word)
  {
    if LowerCase(t) == u {
      forall i | 0 <= i < |t| ensures t[i] == word[i] as nat || t[i] + 32 == word[i] as nat {
        assert LowerCase(t)[i] == u[i];
      }
    }
  }

  lemma ChannelWords()
    ensures Spells(EMAIL, "email") && Spells(SMS, "sms") && Spells(PHONE, "phone") && Spells(WHATSAPP, "whatsapp")
  {
  }

  /** The outreach channel is that of the first draft, or the campaign's own. */
  predicate GoesBy(c: Campaign, channel: Text) {
    if c.metadata.Some? && |c.metadata.value.draftChannels| > 0 && c.metadata.value.draftChannels[0].Some?
    then c.metadata.value.draftChannels[0] == Some(channel) else c.channel == channel
  }

  /** Consent for the channel: no suppression, and a grant on record or, without a record, the old flag. */
  ghost predicate MayWrite(contact: Contact, gate: ConsentGate) {
    gate.suppressionReasons == [] && if gate.status.Some? then gate.status == Some(Granted) else contact.marketingConsent
  }

  /** The address the channel needs, and the lookups made for it: SMS and calls go by the phone's SMS consent, WhatsApp
      by its own, all else by the email's. Without an address there is nothing to look up. */
  ghost predicate MayReach(c: Campaign, contact: Contact, r: Recipient, channel: Text) {
    if AnyCase(channel, "sms") || AnyCase(channel, "phone") then Present(contact.phone) && MayWrite(contact, r.smsLedger)
    else if AnyCase(channel, "whatsapp") then if Present(contact.phone) then MayWrite(contact, r.whatsAppLedger) else contact.marketingConsent
    else if Present(contact.email) then MayWrite(contact, r.emailLedger)
    else !AnyCase(channel, "email") && contact.marketingConsent
  }

  lemma ConsentChannels(channel: Text)
    ensures ConsentChannelFor(channel) ==
            if AnyCase(channel, "sms") || AnyCase(channel, "phone") then Sms else if AnyCase(channel, "whatsapp") then WhatsApp else ConsentStates.Email
    ensures LowerCase(channel) == EMAIL <==> AnyCase(channel, "email")
    ensures LowerCase(channel) in {SMS, PHONE} <==> AnyCase(channel, "sms") || AnyCase(channel, "phone")
  {
    ChannelWords();
    LowerCaseSpells(channel, SMS, "sms");
    LowerCaseSpells(channel, PHONE, "phone");
    LowerCaseSpells(channel, WHATSAPP, "whatsapp");
    LowerCaseSpells(channel, EMAIL, "email");
    hide LowerCase, Spells, AnyCase;
  }

  /** A campaign reaches a contact exactly where the contact is there, has not unsubscribed, and may be written to on
      the campaign's channel. */
  lemma {:induction false} EligibilityOutcome(c: Campaign, r: Recipient, channel: Text)
    requires GoesBy(c, channel)
    ensures Eligibility(c, r).None? <==> r.contact.None? || r.contact.value.deleted
    ensures Eligibility(c, r) == Some([]) <==>
              && r.contact.Some? && !r.contact.value.deleted
              && (forall i | 0 <= i < |r.leads| :: !r.leads[i].unsubscribed)
              && MayReach(c, r.contact.value, r, channel)
    ensures IsEmailCampaign(c) <==> AnyCase(channel, "email")
  {
    assert ResolveOutreachChannel(c) == channel;
    ConsentChannels(channel);
    if r.contact.Some? && !r.contact.value.deleted {
      var contact := r.contact.value;
      var consentChannel := ConsentChannelFor(channel);
      var address := if consentChannel == ConsentStates.Email then contact.email else contact.phone;
      var gate := if Present(address) then Some(LedgerFor(r, consentChannel)) else None;
      EligibleExactly(contact, r.leads, channel, gate);
      hide Reasons, ConsentChannelFor, AnyCase, LowerCase;
      EmailIsNoPhone(channel);
    }
  }

  lemma EmailIsNoPhone(channel: Text)
    ensures AnyCase(channel, "email") ==> !AnyCase(channel, "sms") && !AnyCase(channel, "phone") && !AnyCase(channel, "whatsapp")
  {
    assert AnyCase(channel, "email") ==> channel[0] == 'e' as nat || channel[0] == 'E' as nat;
    assert AnyCase(channel, "phone") ==> channel[0] == 'p' as nat || channel[0] == 'P' as nat;
  }

  /** When a reason is given. */
  ghost predicate Given(reason: Reason, contact: Contact, leads: seq<Lead>, channel: Text, gate: Option<ConsentGate>) {
    var status := if gate.Some? then gate.value.status else None;
    match reason
    case SuppressedAddress => gate.Some? && |gate.value.suppressionReasons| > 0
    case ContactDeleted => contact.deleted
    case ConsentRevoked => status == Some(Revoked)
    case ConsentPending => status == Some(PendingDoubleOptIn)
    case MarketingConsentMissing => status == None && !contact.marketingConsent
    case LeadUnsubscribed => exists i | 0 <= i < |leads| :: leads[i].unsubscribed
    case EmailMissing => AnyCase(channel, "email") && contact.email.GetOr("") == ""
    case PhoneMissing => (AnyCase(channel, "sms") || AnyCase(channel, "phone")) && contact.phone.GetOr("") == ""
  }

  /** The order in which reasons are reported. */
  function Place(reason: Reason): nat {
    match reason
    case SuppressedAddress => 0
    case ContactDeleted => 1
    case ConsentRevoked => 2
    case ConsentPending => 3
    case MarketingConsentMissing => 4
    case LeadUnsubscribed => 5
    case EmailMissing => 6
    case PhoneMissing => 7
  }

  lemma GivenExactly(reason: Reason, contact: Contact, leads: seq<Lead>, channel: Text, gate: Option<ConsentGate>)
    ensures Applies(reason, contact, leads, LowerCase(channel), gate) <==> Given(reason, contact, leads, channel, gate)
  {
    ConsentChannels(channel);
    hide LowerCase, AnyCase, ConsentChannelFor;
  }

  /** The reasons before place `n` that apply, in order. */
  ghost predicate ListedBelow(reasons: seq<Reason>, n: nat, contact: Contact, leads: seq<Lead>, normalized: Text, gate: Option<ConsentGate>) {
    && (forall i, j | 0 <= i < j < |reasons| :: Place(reasons[i]) < Place(reasons[j]))
    && forall x :: x in reasons <==> Place(x) < n && Applies(x, contact, leads, normalized, gate)
  }

  lemma OneListed(reasons: seq<Reason>, reason: Reason, contact: Contact, leads: seq<Lead>, normalized: Text, gate: Option<ConsentGate>)
    requires ListedBelow(reasons, Place(reason), contact, leads, normalized, gate)
    ensures ListedBelow(reasons + Listed(reason, contact, leads, normalized, gate), Place(reason) + 1, contact, leads, normalized, gate)
  {
    assert forall x :: Place(x) == Place(reason) ==> x == reason;
    assert forall i | 0 <= i < |reasons| :: reasons[i] in reasons;
    hide Applies;
  }

  lemma NoneListed(contact: Contact, leads: seq<Lead>, normalized: Text, gate: Option<ConsentGate>)
    ensures ListedBelow([], 0, contact, leads, normalized, gate)
  {
  }

  lemma {:induction false} ReasonsListed(contact: Contact, leads: seq<Lead>, channel: Text, gate: Option<ConsentGate>)
    ensures ListedBelow(Reasons(contact, leads, channel, gate), 8, contact, leads, LowerCase(channel), gate)
  {
    var n := LowerCase(channel);
    hide LowerCase, Applies, ListedBelow, Listed;
    NoneListed(contact, leads, n, gate);
    var r0 := Listed(SuppressedAddress, contact, leads, n, gate);
    OneListed([], SuppressedAddress, contact, leads, n, gate);
    assert [] + r0 == r0;
    var r1 := r0 + Listed(ContactDeleted, contact, leads, n, gate);
    OneListed(r0, ContactDeleted, contact, leads, n, gate);
    var r2 := r1 + Listed(ConsentRevoked, contact, leads, n, gate);
    OneListed(r1, ConsentRevoked, contact, leads, n, gate);
    var r3 := r2 + Listed(ConsentPending, contact, leads, n, gate);
    OneListed(r2, ConsentPending, contact, leads, n, gate);
    var r4 := r3 + Listed(MarketingConsentMissing, contact, leads, n, gate);
    OneListed(r3, MarketingConsentMissing, contact, leads, n, gate);
    var r5 := r4 + Listed(LeadUnsubscribed, contact, leads, n, gate);
    OneListed(r4, LeadUnsubscribed, contact, leads, n, gate);
    var r6 := r5 + Listed(EmailMissing, contact, leads, n, gate);
    OneListed(r5, EmailMissing, contact, leads, n, gate);
    var r7 := r6 + Listed(PhoneMissing, contact, leads, n, gate);
    OneListed(r6, PhoneMissing, contact, leads, n, gate);
  }

  /** The reported reasons are those given, each once and in their order. */
  lemma {:induction false} ReasonsOutcome(contact: Contact, leads: seq<Lead>, channel: Text, gate: Option<ConsentGate>)
    ensures var reasons := Reasons(contact, leads, channel, gate);
            && (forall reason :: reason in reasons <==> Given(reason, contact, leads, channel, gate))
            && forall i, j | 0 <= i < j < |reasons| :: Place(reasons[i]) < Place(reasons[j])
  {
    ReasonsListed(contact, leads, channel, gate);
    assert forall reason: Reason :: Place(reason) < 8;
    hide Reasons, Place, Applies, Given, LowerCase;
    forall reason ensures reason in Reasons(contact, leads, channel, gate) <==> Given(reason, contact, leads, channel, gate) {
      GivenExactly(reason, contact, leads, channel, gate);
    }
  }

  // ---- Sending --------------------------------------------------------------------------------

  /** The first signal of a pair is kept. */
  ghost predicate SignalKept(s: Store, t: Store, key: (Text, Text), signal: Signal) {
    && t.signals.Keys == s.signals.Keys + {key}
    && forall k | k in t.signals :: t.signals[k] == if k in s.signals then s.signals[k] else signal
  }

  /** What a cleared send does, by the contact's reasons. */
  ghost predicate Left(s: Store, t: Store, campaignId: Text, contactId: Text, id: nat, reasons: seq<Reason>, byEmail: bool, delivery: Delivery,
                       outcome: Result<Outcome, Error>)
  {
    && t.variants == s.variants && t.sender == s.sender && t.authorizations == s.authorizations
    && match outcome
       case Ok(WasSuppressed(found)) =>
         && reasons != [] && found == reasons && t.outbox == s.outbox
         && Restatused(s, t, campaignId, SuppressedCampaign) && SignalKept(s, t, (campaignId, contactId), SuppressedSignal(reasons))
       case Ok(WasSent(mailed)) =>
         && reasons == [] && (mailed <==> byEmail && delivery == Accepted) && |t.outbox| == |s.outbox| + One(mailed)
         && Restatused(s, t, campaignId, SentCampaign) && SignalKept(s, t, (campaignId, contactId), DeliveredSignal(id))
       case Err(e) =>
         && reasons == [] && byEmail && t.campaigns == s.campaigns && t.signals == s.signals
         && e in {NoAddress, NoVariantToSend, ProviderFailed}
         && (e == ProviderFailed ==> delivery in {Refused, ReplyLost} && |t.outbox| == |s.outbox| + One(delivery == ReplyLost))
         && (e != ProviderFailed ==> t.outbox == s.outbox)
  }

  lemma SignalAfter(s: Store, t: Store, key: (Text, Text), signal: Signal)
    requires t.signals == RecordSignal(s.signals, key, signal)
    ensures SignalKept(s, t, key, signal)
  {
  }

  lemma FinishOutcome(s: Store, campaignId: Text, contactId: Text, id: nat, reasons: seq<Reason>, byEmail: bool, r: Recipient, delivery: Delivery)
    requires campaignId in s.campaigns
    ensures var (t, outcome) := Finish(s, campaignId, contactId, id, reasons, byEmail, r, delivery);
            Left(s, t, campaignId, contactId, id, reasons, byEmail, delivery, outcome)
  {
    var (t, outcome) := Finish(s, campaignId, contactId, id, reasons, byEmail, r, delivery);
    hide FirstVariant, ResolvePrivacyUrl, SignalKept;
    if outcome.Ok? {
      SignalAfter(s, t, (campaignId, contactId), if reasons != [] then SuppressedSignal(reasons) else DeliveredSignal(id));
    }
    hide RecordSignal;
  }

  /** What a send leaves behind, by its outcome. */
  lemma {:induction false} SendOutcome(s: Store, campaignId: Text, contactId: Text, r: Recipient, tie: nat, delivery: Delivery, hashOf: Payload -> Digest)
    requires Clear(s, campaignId, tie, hashOf).Ok?
    ensures campaignId in s.campaigns
    ensures var (t, outcome) := Send(s, campaignId, contactId, r, tie, delivery, hashOf);
            var (c, id) := (s.campaigns[campaignId], Clear(s, campaignId, tie, hashOf).value);
            match Eligibility(c, r)
            case None => t == s && outcome == Err(ContactMissing)
            case Some(reasons) => Left(s, t, campaignId, contactId, id, reasons, IsEmailCampaign(c), delivery, outcome)
  {
    ClearShape(s, campaignId, tie, hashOf);
    var (c, id) := (s.campaigns[campaignId], Clear(s, campaignId, tie, hashOf).value);
    if Eligibility(c, r).Some? {
      FinishOutcome(s, campaignId, contactId, id, Eligibility(c, r).value, IsEmailCampaign(c), r, delivery);
    }
    hide Clear, Eligibility, IsEmailCampaign, Finish, Left;
  }

  /** The mail that left is addressed to the contact and is the campaign's own. */
  lemma {:induction false} MailOutcome(s: Store, campaignId: Text, contactId: Text, r: Recipient, tie: nat, delivery: Delivery, hashOf: Payload -> Digest)
    requires Send(s, campaignId, contactId, r, tie, delivery, hashOf).0.outbox != s.outbox
    ensures var outbox := Send(s, campaignId, contactId, r, tie, delivery, hashOf).0.outbox;
            && |outbox| == |s.outbox| + 1 && outbox[..|s.outbox|] == s.outbox
            && var m := outbox[|s.outbox|];
               && m.campaignId == campaignId && m.contactId == contactId && m.sender == s.sender
               && r.contact.Some? && r.contact.value.email == Some(m.to)
               && m.email.unsubscribeUrl == r.unsubscribeUrl
               && Clear(s, campaignId, tie, hashOf) == Ok(m.authorizationId)
               && delivery in {Accepted, ReplyLost}
  {
    SendShape(s, campaignId, contactId, r, tie, delivery, hashOf);
    hide Send, Clear, Eligibility, IsEmailCampaign, FirstVariant, ResolvePrivacyUrl;
  }

  /** The row is authorized for the campaign, and every other such row was decided earlier. */
  ghost predicate Newest(rows: seq<Authorization>, campaignId: Text, n: nat) {
    && n < |rows| && rows[n].campaignId == campaignId && rows[n].status == Authorized
    && forall j | 0 <= j < |rows| && j != n && rows[j].campaignId == campaignId && rows[j].status == Authorized ::
         rows[j].decidedAt.GetOr(0) < rows[n].decidedAt.GetOr(0)
  }

  lemma DecidedIsNewest(s: Store, asked: Store, t: Store, campaignId: Text, requestedBy: Text, actor: Text, via: Text, at: nat, hashOf: Payload -> Digest)
    requires AfterRequest(s, asked, campaignId, requestedBy, hashOf)
    requires AfterDecision(asked, t, |s.authorizations|, Authorize, actor, via, None, at)
    requires forall i | 0 <= i < |s.authorizations| && s.authorizations[i].campaignId == campaignId && s.authorizations[i].status == Authorized ::
               s.authorizations[i].decidedAt.GetOr(0) < at
    ensures Newest(t.authorizations, campaignId, |s.authorizations|)
    ensures t.campaigns == s.campaigns && t.variants == s.variants && t.sender == s.sender && t.outbox == s.outbox
    ensures Shows(t.authorizations[|s.authorizations|].snapshot, t.campaigns[campaignId], LoadVariants(t.variants, campaignId), t.sender)
  {
    hide Shows, LoadVariants;
    forall j | 0 <= j < |s.authorizations| ensures t.authorizations[j] == asked.authorizations[j] && SupersededRow(s.authorizations[j], asked.authorizations[j], campaignId) {
    }
  }

  lemma {:induction false} NewestClears(t: Store, campaignId: Text, n: nat, tie: nat, hashOf: Payload -> Digest)
    requires Injective(hashOf) && CampaignAuthorization.Sound(t, hashOf) && campaignId in t.campaigns
    requires Newest(t.authorizations, campaignId, n)
    requires Shows(t.authorizations[n].snapshot, t.campaigns[campaignId], LoadVariants(t.variants, campaignId), t.sender)
    requires t.campaigns[campaignId].skuKey.GetOr([]) != [] && t.campaigns[campaignId].status in {Approved, Scheduled} && Ready(t.campaigns[campaignId])
    ensures Clear(t, campaignId, tie, hashOf) == Ok(n)
  {
    ClearOutcome(t, campaignId, tie, hashOf);
    hide Clear, Shows, Ready, CampaignAuthorization.Sound, LoadVariants;
    assert !NoneAuthorized(t.authorizations, campaignId);
  }

  lemma {:induction false} ClearedIsMailed(t: Store, campaignId: Text, contactId: Text, r: Recipient, tie: nat, hashOf: Payload -> Digest)
    requires Clear(t, campaignId, tie, hashOf).Ok? && campaignId in t.campaigns && HasVariant(t, campaignId)
    requires IsEmailCampaign(t.campaigns[campaignId]) && Eligibility(t.campaigns[campaignId], r) == Some([])
    ensures var (u, outcome) := Send(t, campaignId, contactId, r, tie, Accepted, hashOf);
            outcome == Ok(WasSent(true)) && |u.outbox| == |t.outbox| + 1
  {
    EligibleHasAddress(t.campaigns[campaignId], r);
    FirstVariantIsReviewedFirst(t.variants, campaignId);
    NothingLoaded(t, campaignId);
    hide Clear, Eligibility, IsEmailCampaign, FirstVariant, LoadVariants, HasVariant, ResolvePrivacyUrl;
  }

  /** Nothing else stands in the way: an import that is approved and ready, requested and authorized as it is, is
      mailed to every contact its channel may reach. */
  lemma {:induction false} AuthorizedIsSent(s: Store, campaignId: Text, requestedBy: Text, actor: Text, via: Text, at: nat, contactId: Text,
                                            r: Recipient, tie: nat, hashOf: Payload -> Digest)
    requires Injective(hashOf) && CampaignAuthorization.Sound(s, hashOf) && campaignId in s.campaigns && HasVariant(s, campaignId)
    requires var c := s.campaigns[campaignId];
             c.skuKey.GetOr([]) != [] && c.status in {Approved, Scheduled} && Ready(c) && IsEmailCampaign(c) && Eligibility(c, r) == Some([])
    requires forall i | 0 <= i < |s.authorizations| && s.authorizations[i].campaignId == campaignId && s.authorizations[i].status == Authorized ::
               s.authorizations[i].decidedAt.GetOr(0) < at
    ensures Request(s, campaignId, requestedBy, hashOf).Ok?
    ensures var asked := Request(s, campaignId, requestedBy, hashOf).value;
            var decided := Decide(asked, |s.authorizations|, Authorize, actor, via, None, at, hashOf);
            && decided.Ok?
            && Send(decided.value, campaignId, contactId, r, tie, Accepted, hashOf).1 == Ok(WasSent(true))
            && |Send(decided.value, campaignId, contactId, r, tie, Accepted, hashOf).0.outbox| == |s.outbox| + 1
  {
    var n := |s.authorizations|;
    RequestOutcome(s, campaignId, requestedBy, hashOf);
    RequestSound(s, campaignId, requestedBy, hashOf);
    var asked := Request(s, campaignId, requestedBy, hashOf).value;
    assert asked.authorizations[n].status == Pending && asked.authorizations[n].campaignId == campaignId;
    DecideOutcome(asked, n, Authorize, actor, via, None, at, hashOf);
    hide Send, Request, Decide, Shows, Ready, Eligibility, IsEmailCampaign, CampaignAuthorization.Sound, LoadVariants, AfterDecision;
    DecideSound(asked, n, Authorize, actor, via, None, at, hashOf);
    var t := Decide(asked, n, Authorize, actor, via, None, at, hashOf).value;
    DecidedIsNewest(s, asked, t, campaignId, requestedBy, actor, via, at, hashOf);
    NewestClears(t, campaignId, n, tie, hashOf);
    ClearedIsMailed(t, campaignId, contactId, r, tie, hashOf);
  }
}
