/** The owner's approval of a campaign, and the send path it gates.

  The store below is the program's tables: campaigns, draft variants,
  authorization rows (identified by position, never removed), the mail handed
  to the provider and the buyer signals. One operation runs at a time.
 */
module CampaignAuthorization {
  import opened Options
  import opened CanonicalJson
  import opened CampaignPayload
  import opened SendGate
  import opened Trimming
  import ConsentStates

  datatype AuthorizationStatus = Pending | Authorized | Rejected | Superseded

  datatype Authorization = Authorization(
    campaignId: Text,
    status: AuthorizationStatus,
    payloadHash: Digest,
    snapshot: Payload,
    requestedBy: Text,
    decidedBy: Option<Text>,
    decidedVia: Option<Text>,
    decisionNote: Option<Text>,
    decidedAt: Option<nat>)

  /** What the email template renders; the rendering is a function of this alone. */
  datatype Email = Email(
    subject: Text,
    body: Text,
    preheader: Option<Text>,
    cta: Option<Text>,
    ctaUrl: Option<Text>,
    unsubscribeUrl: Option<Text>,
    privacyUrl: Option<Text>)

  datatype Sent = Sent(campaignId: Text, contactId: Text, authorizationId: nat, sender: Text, to: string, email: Email)

  /** A buyer signal; the first one of a (campaign, contact) pair is kept. */
  datatype Signal = SuppressedSignal(reasons: seq<Reason>) | DeliveredSignal(authorizationId: nat)

  datatype Store = Store(
    campaigns: map<Text, Campaign>,
    variants: seq<VariantRow>,
    sender: Text,
    authorizations: seq<Authorization>,
    outbox: seq<Sent>,
    signals: map<(Text, Text), Signal>)

  datatype Error =
    | CampaignMissing
    | AuthorizationMissing
    | NothingToReview
    | NotPending
    | NoteRequired
    | ContentChanged
    | NotAnImport
    | NotApproved
    | GaBlocked
    | NoAuthorization
    | ContactMissing
    | NoAddress
    | NoVariantToSend
    | ProviderFailed

  datatype Decision = Authorize | Reject

  /** The contact as the eligibility queries see it. */
  datatype Recipient = Recipient(
    contact: Option<Contact>,
    leads: seq<Lead>,
    emailLedger: ConsentGate,
    smsLedger: ConsentGate,
    whatsAppLedger: ConsentGate,
    unsubscribeUrl: Option<Text>)

  /** What the mail provider did with a message; it may take one and the reply be lost, which looks like a refusal. */
  datatype Delivery = Accepted | DryRun | Refused | ReplyLost

  datatype Outcome = WasSuppressed(reasons: seq<Reason>) | WasSent(mailed: bool)

  // ---- Review --------------------------------------------------------------

  function CurrentPayload(s: Store, campaignId: Text): Payload
    requires campaignId in s.campaigns
  {
    BuildPayload(s.campaigns[campaignId], LoadVariants(s.variants, campaignId), s.sender)
  }

  /** The email the owner sees for one variant of a snapshot: no unsubscribe link yet. */
  function PreviewEmail(p: Payload, v: VariantCopy): Email {
    Email(v.subject.GetOr(p.name), v.body, v.preheader, v.cta, v.ctaUrl, None, p.privacyUrl)
  }

  function SupersedePending(rows: seq<Authorization>, campaignId: Text): (r: seq<Authorization>)
    ensures |r| == |rows|
    ensures forall i | 0 <= i < |rows| :: r[i] ==
              if rows[i].campaignId == campaignId && rows[i].status == Pending then rows[i].(status := Superseded) else rows[i]
  {
    seq(|rows|, i requires 0 <= i < |rows| =>
      if rows[i].campaignId == campaignId && rows[i].status == Pending then rows[i].(status := Superseded) else rows[i])
  }

  function Request(s: Store, campaignId: Text, requestedBy: Text, hashOf: Payload -> Digest): Result<Store, Error> {
    if campaignId !in s.campaigns then Err(CampaignMissing)
    else if LoadVariants(s.variants, campaignId) == [] then Err(NothingToReview)
    else
      var payload := CurrentPayload(s, campaignId);
      var row := Authorization(campaignId, Pending, hashOf(payload), payload, requestedBy, None, None, None, None);
      Ok(s.(authorizations := SupersedePending(s.authorizations, campaignId) + [row]))
  }

  function SetStatus(campaigns: map<Text, Campaign>, campaignId: Text, status: CampaignStatus): map<Text, Campaign> {
    if campaignId in campaigns then campaigns[campaignId := campaigns[campaignId].(status := status)] else campaigns
  }

  predicate BlankUnit(u: CodeUnit) {
    IsBlank(u)
  }

  function TrimmedNote(note: Option<Text>): Option<Text> {
    if note.Some? then Some(Trim(note.value, BlankUnit)) else None
  }

  function Decide(s: Store, id: nat, decision: Decision, actor: Text, via: Text, note: Option<Text>, at: nat,
                  hashOf: Payload -> Digest): Result<Store, Error>
  {
    if id >= |s.authorizations| then Err(AuthorizationMissing)
    else
      var row := s.authorizations[id];
      if row.status != Pending then Err(NotPending)
      else if decision == Reject && !Present(TrimmedNote(note)) then Err(NoteRequired)
      else if decision == Authorize && row.campaignId !in s.campaigns then Err(CampaignMissing)
      else if decision == Authorize && hashOf(CurrentPayload(s, row.campaignId)) != row.payloadHash then
        Err(ContentChanged)
      else
        var decided := row.(status := if decision == Authorize then Authorized else Rejected,
                            decidedBy := Some(actor), decidedVia := Some(via), decisionNote := TrimmedNote(note), decidedAt := Some(at));
        Ok(s.(authorizations := s.authorizations[id := decided],
              campaigns := if decision == Reject then SetStatus(s.campaigns, row.campaignId, RejectedCampaign) else s.campaigns))
  }

  /** A pending request is rejected exactly when the note says something: blanks are no explanation. */
  lemma RejectionNeedsNote(s: Store, id: nat, actor: Text, via: Text, note: Option<Text>, at: nat, hashOf: Payload -> Digest)
    requires id < |s.authorizations| && s.authorizations[id].status == Pending
    ensures Decide(s, id, Reject, actor, via, note, at, hashOf).Ok? <==>
              note.Some? && exists i | 0 <= i < |note.value| :: !BlankUnit(note.value[i])
  {
    hide BlankUnit;
    if note.Some? {
      TrimEmpty(note.value, BlankUnit);
    }
  }

  // ---- Readiness -----------------------------------------------------------

  predicate PaidGa(campaignType: Text) {
    || campaignType == Ascii("paid_ga")
    || campaignType == Ascii("paid_revenue")
    || campaignType == Ascii("revenue_campaign")
    || campaignType == Ascii("campaign_ga")
  }

  predicate AllowedForCandidate(campaignType: Text) {
    || campaignType == Ascii("controlled_pilot")
    || campaignType == Ascii("warm_pilot")
    || campaignType == Ascii("discovery")
    || campaignType == Ascii("waitlist")
  }

  predicate GaAllowed(c: Campaign) {
    && c.gaReadiness != NotReady
    && var gaStatus := if c.metadata.Some? then c.metadata.value.commercialGaStatus else OtherGaStatus;
    && var campaignType := if c.metadata.Some? then c.metadata.value.campaignType else None;
    && gaStatus != Blocked
    && gaStatus != Paused
    && (Present(campaignType) && PaidGa(campaignType.value) ==> gaStatus == GaReady)
    && (gaStatus == Candidate && Present(campaignType) ==> AllowedForCandidate(campaignType.value))
  }

  /** The commercial policy: not before the product is ready, nothing while it is blocked or paused, paid campaigns only
      at general availability, and of candidates only the four small kinds of campaign. */
  ghost predicate Ready(c: Campaign) {
    && c.gaReadiness != NotReady
    && (c.metadata.Some? ==>
          var (status, kind) := (c.metadata.value.commercialGaStatus, c.metadata.value.campaignType.GetOr([]));
          && status != Blocked && status != Paused
          && (kind in {Ascii("paid_ga"), Ascii("paid_revenue"), Ascii("revenue_campaign"), Ascii("campaign_ga")} ==> status == GaReady)
          && (status == Candidate && kind != [] ==>
                kind in {Ascii("controlled_pilot"), Ascii("warm_pilot"), Ascii("discovery"), Ascii("waitlist")}))
  }

  /** The guard keeps the policy, and refuses nothing else. */
  lemma GaAllowedExactly(c: Campaign)
    ensures GaAllowed(c) <==> Ready(c)
  {
    assert Ascii("paid_ga") != [] && Ascii("paid_revenue") != [] && Ascii("revenue_campaign") != [] && Ascii("campaign_ga") != [];
    hide Ascii;
  }

  /** Staff review of an import: approval also queues the owner's request. */
  function Review(s: Store, campaignId: Text, approve: bool, actor: Text, hashOf: Payload -> Digest): Result<Store, Error> {
    if campaignId !in s.campaigns then Err(CampaignMissing)
    else if !Present(s.campaigns[campaignId].skuKey) then Err(NotAnImport)
    else if !approve then Ok(s.(campaigns := SetStatus(s.campaigns, campaignId, RejectedCampaign)))
    else if !GaAllowed(s.campaigns[campaignId]) then Err(GaBlocked)
    else
      var approved := s.(campaigns := SetStatus(s.campaigns, campaignId, Approved));
      match Request(approved, campaignId, actor, hashOf)
      case Ok(requested) => Ok(requested)
      case Err(_) => Ok(approved)
  }

  // ---- The gate ------------------------------------------------------------

  predicate IsAuthorizedFor(rows: seq<Authorization>, campaignId: Text, i: nat) {
    i < |rows| && rows[i].campaignId == campaignId && rows[i].status == Authorized
  }

  function DecidedAt(row: Authorization): nat {
    row.decidedAt.GetOr(0)
  }

  /** `i` is an authorized row of the campaign, and none was decided later. */
  predicate IsLatestAuthorized(rows: seq<Authorization>, campaignId: Text, i: nat) {
    && IsAuthorizedFor(rows, campaignId, i)
    && forall j | 0 <= j < |rows| :: IsAuthorizedFor(rows, campaignId, j) ==> DecidedAt(rows[j]) <= DecidedAt(rows[i])
  }

  function LatestAuthorized(rows: seq<Authorization>, campaignId: Text): (r: Option<nat>)
    ensures r.Some? ==> IsLatestAuthorized(rows, campaignId, r.value)
    ensures r.None? ==> forall j | 0 <= j < |rows| :: !IsAuthorizedFor(rows, campaignId, j)
  {
    if rows == [] then None
    else
      var n := |rows| - 1;
      var before := LatestAuthorized(rows[..n], campaignId);
      assert forall j | 0 <= j < n :: IsAuthorizedFor(rows, campaignId, j) <==> IsAuthorizedFor(rows[..n], campaignId, j);
      if !IsAuthorizedFor(rows, campaignId, n) then before
      else if before.Some? && DecidedAt(rows[n]) <= DecidedAt(rows[before.value]) then before
      else Some(n)
  }

  /** The row the gate query returns; `tie` settles decisions taken at one instant. */
  function SelectAuthorized(rows: seq<Authorization>, campaignId: Text, tie: nat): (r: Option<nat>)
    ensures r.Some? ==> IsLatestAuthorized(rows, campaignId, r.value)
    ensures r.None? ==> forall j | 0 <= j < |rows| :: !IsAuthorizedFor(rows, campaignId, j)
  {
    if IsLatestAuthorized(rows, campaignId, tie) then Some(tie) else LatestAuthorized(rows, campaignId)
  }

  function Gate(s: Store, campaignId: Text, tie: nat, hashOf: Payload -> Digest): Result<nat, Error>
    requires campaignId in s.campaigns
  {
    match SelectAuthorized(s.authorizations, campaignId, tie)
    case None => Err(NoAuthorization)
    case Some(i) =>
      if hashOf(CurrentPayload(s, campaignId)) != s.authorizations[i].payloadHash then Err(ContentChanged)
      else Ok(i)
  }

  // ---- Sending -------------------------------------------------------------

  function LedgerFor(r: Recipient, channel: ConsentStates.Channel): ConsentGate {
    match channel
    case Email => r.emailLedger
    case Sms => r.smsLedger
    case WhatsApp => r.whatsAppLedger
  }

  /** The reasons against sending, or nothing when there is no such contact. */
  function Eligibility(c: Campaign, r: Recipient): Option<seq<Reason>> {
    if r.contact.None? || r.contact.value.deleted then None
    else
      var contact := r.contact.value;
      var channel := ResolveOutreachChannel(c);
      var consentChannel := ConsentChannelFor(channel);
      var address := if consentChannel == ConsentStates.Email then contact.email else contact.phone;
      var gate := if Present(address) then Some(LedgerFor(r, consentChannel)) else None;
      Some(Reasons(contact, r.leads, channel, gate))
  }

  function RecordSignal(signals: map<(Text, Text), Signal>, key: (Text, Text), signal: Signal): map<(Text, Text), Signal> {
    if key in signals then signals else signals[key := signal]
  }

  /** The message for a contact: the first variant there is now, under the campaign as it was read, or the error. */
  function ComposeFrom(s: Store, c: Campaign, campaignId: Text, contactId: Text, authorizationId: nat, r: Recipient)
    : Result<Sent, Error>
  {
    if r.contact.None? || !Present(r.contact.value.email) then Err(NoAddress)
    else
      match FirstVariant(s.variants, campaignId)
      case None => Err(NoVariantToSend)
      case Some(row) =>
        Ok(Sent(campaignId, contactId, authorizationId, s.sender, r.contact.value.email.value,
                Email(row.copy.subject.GetOr(c.name), row.copy.body, row.copy.preheader, row.copy.cta, row.copy.ctaUrl,
                      r.unsubscribeUrl, ResolvePrivacyUrl(c.skuKey))))
  }

  function Compose(s: Store, campaignId: Text, contactId: Text, authorizationId: nat, r: Recipient): Result<Sent, Error>
    requires campaignId in s.campaigns
  {
    ComposeFrom(s, s.campaigns[campaignId], campaignId, contactId, authorizationId, r)
  }

  function AfterSend(s: Store, campaignId: Text, contactId: Text, authorizationId: nat): Store {
    s.(signals := RecordSignal(s.signals, (campaignId, contactId), DeliveredSignal(authorizationId)),
       campaigns := SetStatus(s.campaigns, campaignId, SentCampaign))
  }

  /** Every check before the contact is looked at; the row that clears the send. */
  function Clear(s: Store, campaignId: Text, tie: nat, hashOf: Payload -> Digest): Result<nat, Error> {
    if campaignId !in s.campaigns then Err(CampaignMissing)
    else if !Present(s.campaigns[campaignId].skuKey) then Err(NotAnImport)
    else if s.campaigns[campaignId].status !in {Approved, Scheduled} then Err(NotApproved)
    else if !GaAllowed(s.campaigns[campaignId]) then Err(GaBlocked)
    else Gate(s, campaignId, tie, hashOf)
  }

  /** The mail for an eligible contact of an email campaign. */
  function Dispatch(s: Store, campaignId: Text, contactId: Text, id: nat, r: Recipient, delivery: Delivery)
    : (Store, Result<Outcome, Error>)
    requires campaignId in s.campaigns
  {
    match Compose(s, campaignId, contactId, id, r)
    case Err(e) => (s, Err(e))
    case Ok(message) =>
      if delivery == Refused then (s, Err(ProviderFailed))
      else if delivery == ReplyLost then (s.(outbox := s.outbox + [message]), Err(ProviderFailed))
      else
        var mailed := delivery == Accepted;
        (AfterSend(s.(outbox := if mailed then s.outbox + [message] else s.outbox), campaignId, contactId, id),
         Ok(WasSent(mailed)))
  }

  /** What happens to a cleared send once the contact's reasons are known. */
  function Finish(s: Store, campaignId: Text, contactId: Text, id: nat, reasons: seq<Reason>, byEmail: bool,
                  r: Recipient, delivery: Delivery): (Store, Result<Outcome, Error>)
    requires campaignId in s.campaigns
  {
    if reasons != [] then
      (s.(signals := RecordSignal(s.signals, (campaignId, contactId), SuppressedSignal(reasons)),
          campaigns := SetStatus(s.campaigns, campaignId, SuppressedCampaign)),
       Ok(WasSuppressed(reasons)))
    else if !byEmail then
      (AfterSend(s, campaignId, contactId, id), Ok(WasSent(false)))
    else
      Dispatch(s, campaignId, contactId, id, r, delivery)
  }

  predicate IsEmailCampaign(c: Campaign) {
    LowerCase(ResolveOutreachChannel(c)) == EMAIL
  }

  function Send(s: Store, campaignId: Text, contactId: Text, r: Recipient, tie: nat, delivery: Delivery,
                hashOf: Payload -> Digest): (Store, Result<Outcome, Error>)
  {
    match Clear(s, campaignId, tie, hashOf)
    case Err(e) => (s, Err(e))
    case Ok(id) =>
      match Eligibility(s.campaigns[campaignId], r)
      case None => (s, Err(ContactMissing))
      case Some(reasons) =>
        Finish(s, campaignId, contactId, id, reasons, IsEmailCampaign(s.campaigns[campaignId]), r, delivery)
  }

  // ---- Runs ------------------------------------------------------------------

  /** Anything that can happen: edits are arbitrary, the rest are the service's calls. */
  datatype Op =
    | EditCampaign(campaign: Campaign)
    | RemoveCampaign(campaignId: Text)
    | EditVariants(rows: seq<VariantRow>)
    | ChangeSender(sender: Text)
    | RequestOp(campaignId: Text, requestedBy: Text)
    | DecideOp(id: nat, decision: Decision, actor: Text, via: Text, note: Option<Text>, at: nat)
    | ReviewOp(campaignId: Text, approve: bool, actor: Text)
    | SendOp(campaignId: Text, contactId: Text, recipient: Recipient, tie: nat, delivery: Delivery)

  const EMPTY_STORE: Store := Store(map[], [], [], [], [], map[])

  function OrUnchanged(s: Store, r: Result<Store, Error>): Store {
    match r
    case Ok(t) => t
    case Err(_) => s
  }

  function Apply(s: Store, op: Op, hashOf: Payload -> Digest): Store {
    match op
    case EditCampaign(c) => s.(campaigns := s.campaigns[c.id := c])
    case RemoveCampaign(id) => s.(campaigns := s.campaigns - {id})
    case EditVariants(rows) => s.(variants := rows)
    case ChangeSender(t) => s.(sender := t)
    case RequestOp(id, actor) => OrUnchanged(s, Request(s, id, actor, hashOf))
    case DecideOp(id, decision, actor, via, note, at) =>
      OrUnchanged(s, Decide(s, id, decision, actor, via, note, at, hashOf))
    case ReviewOp(id, approve, actor) => OrUnchanged(s, Review(s, id, approve, actor, hashOf))
    case SendOp(id, contactId, r, tie, delivery) => Send(s, id, contactId, r, tie, delivery, hashOf).0
  }

  /** The store after a whole history of operations, oldest first. */
  function Run(ops: seq<Op>, hashOf: Payload -> Digest): Store {
    if ops == [] then EMPTY_STORE else Apply(Run(ops[..|ops| - 1], hashOf), ops[|ops| - 1], hashOf)
  }

  // ---- What every operation keeps ----------------------------------------------

  ghost predicate RowSound(row: Authorization, hashOf: Payload -> Digest) {
    && row.payloadHash == hashOf(row.snapshot)
    && row.snapshot.campaignId == row.campaignId
    && row.snapshot.variants != []
    && (row.status == Authorized || row.status == Rejected ==> row.decidedBy.Some? && row.decidedAt.Some?)
    && (row.status == Rejected ==> Present(row.decisionNote))
    && (row.status == Pending ==> row.decidedBy.None? && row.decidedAt.None?)
  }

  ghost predicate OnePending(rows: seq<Authorization>) {
    forall i, j | 0 <= i < j < |rows| && rows[i].status == Pending && rows[j].status == Pending ::
      rows[i].campaignId != rows[j].campaignId
  }

  /** The message is, link aside, the preview of an authorized row's first variant. */
  ghost predicate WasPreviewed(rows: seq<Authorization>, m: Sent) {
    && IsAuthorizedFor(rows, m.campaignId, m.authorizationId)
    && var row := rows[m.authorizationId];
    && row.decidedBy.Some?
    && row.snapshot.variants != []
    && m.sender == row.snapshot.sender
    && m.email.(unsubscribeUrl := None) == PreviewEmail(row.snapshot, row.snapshot.variants[0])
  }

  ghost predicate Sound(s: Store, hashOf: Payload -> Digest) {
    && (forall id | id in s.campaigns :: s.campaigns[id].id == id)
    && (forall i | 0 <= i < |s.authorizations| :: RowSound(s.authorizations[i], hashOf))
    && OnePending(s.authorizations)
    && (forall i | 0 <= i < |s.outbox| :: WasPreviewed(s.authorizations, s.outbox[i]))
  }

  /** A row never loses what it froze, and once decided or superseded never changes. */
  ghost predicate Frozen(before: seq<Authorization>, after: seq<Authorization>) {
    && |before| <= |after|
    && forall i | 0 <= i < |before| ::
         && after[i].campaignId == before[i].campaignId
         && after[i].snapshot == before[i].snapshot
         && after[i].payloadHash == before[i].payloadHash
         && after[i].requestedBy == before[i].requestedBy
         && (before[i].status != Pending ==> after[i] == before[i])
  }

  lemma StillPreviewed(before: seq<Authorization>, after: seq<Authorization>, outbox: seq<Sent>)
    requires Frozen(before, after)
    requires forall i | 0 <= i < |outbox| :: WasPreviewed(before, outbox[i])
    ensures forall i | 0 <= i < |outbox| :: WasPreviewed(after, outbox[i])
  {
    forall i | 0 <= i < |outbox| ensures WasPreviewed(after, outbox[i]) {
      assert WasPreviewed(before, outbox[i]);
    }
  }

  lemma SupersededSound(rows: seq<Authorization>, campaignId: Text, hashOf: Payload -> Digest)
    requires OnePending(rows)
    requires forall i | 0 <= i < |rows| :: RowSound(rows[i], hashOf)
    ensures var r := SupersedePending(rows, campaignId);
            && OnePending(r)
            && Frozen(rows, r)
            && forall i | 0 <= i < |r| :: RowSound(r[i], hashOf) && (r[i].status == Pending ==> r[i].campaignId != campaignId)
  {
    var r := SupersedePending(rows, campaignId);
    forall i | 0 <= i < |r| ensures RowSound(r[i], hashOf) {
      assert RowSound(rows[i], hashOf);
    }
  }

  lemma {:induction false} RequestSound(s: Store, campaignId: Text, requestedBy: Text, hashOf: Payload -> Digest)
    requires Sound(s, hashOf)
    ensures Request(s, campaignId, requestedBy, hashOf).Ok? ==>
              var t := Request(s, campaignId, requestedBy, hashOf).value;
              Sound(t, hashOf) && Frozen(s.authorizations, t.authorizations)
  {
    if Request(s, campaignId, requestedBy, hashOf).Ok? {
      var t := Request(s, campaignId, requestedBy, hashOf).value;
      var superseded := SupersedePending(s.authorizations, campaignId);
      var row := t.authorizations[|superseded|];
      assert RowSound(row, hashOf);
      SupersededSound(s.authorizations, campaignId, hashOf);
      StillPreviewed(s.authorizations, t.authorizations, s.outbox);
    }
  }

  lemma {:induction false} DecideSound(s: Store, id: nat, decision: Decision, actor: Text, via: Text, note: Option<Text>, at: nat,
                    hashOf: Payload -> Digest)
    requires Sound(s, hashOf)
    ensures Decide(s, id, decision, actor, via, note, at, hashOf).Ok? ==>
              var t := Decide(s, id, decision, actor, via, note, at, hashOf).value;
              Sound(t, hashOf) && Frozen(s.authorizations, t.authorizations)
  {
    hide WasPreviewed, CurrentPayload;
    if Decide(s, id, decision, actor, via, note, at, hashOf).Ok? {
      var t := Decide(s, id, decision, actor, via, note, at, hashOf).value;
      assert RowSound(s.authorizations[id], hashOf);
      StillPreviewed(s.authorizations, t.authorizations, s.outbox);
    }
  }

  lemma {:induction false} ReviewSound(s: Store, campaignId: Text, approve: bool, actor: Text, hashOf: Payload -> Digest)
    requires Sound(s, hashOf)
    requires Review(s, campaignId, approve, actor, hashOf).Ok?
    ensures var t := Review(s, campaignId, approve, actor, hashOf).value;
            Sound(t, hashOf) && Frozen(s.authorizations, t.authorizations)
  {
    if approve {
      var approved := s.(campaigns := SetStatus(s.campaigns, campaignId, Approved));
      assert Sound(approved, hashOf);
      RequestSound(approved, campaignId, actor, hashOf);
    }
  }

  /** With a sound store and no hashOf collisions, the gate compares payloads. */
  lemma {:induction false} GateExact(s: Store, campaignId: Text, tie: nat, hashOf: Payload -> Digest)
    requires Injective(hashOf) && Sound(s, hashOf) && campaignId in s.campaigns
    ensures var selected := SelectAuthorized(s.authorizations, campaignId, tie);
            && (Gate(s, campaignId, tie, hashOf).Ok? <==>
                  selected.Some? && CurrentPayload(s, campaignId) == s.authorizations[selected.value].snapshot)
            && (Gate(s, campaignId, tie, hashOf).Ok? ==> Gate(s, campaignId, tie, hashOf).value == selected.value)
  {
    var selected := SelectAuthorized(s.authorizations, campaignId, tie);
    if selected.Some? {
      assert RowSound(s.authorizations[selected.value], hashOf);
      assert hashOf(CurrentPayload(s, campaignId)) == hashOf(s.authorizations[selected.value].snapshot)
        ==> CurrentPayload(s, campaignId) == s.authorizations[selected.value].snapshot;
    }
  }

  /** Behind the gate the message exists and shows the approved first variant. */
  lemma ComposedIsPreviewed(s: Store, campaignId: Text, contactId: Text, id: nat, r: Recipient)
    requires campaignId in s.campaigns && IsAuthorizedFor(s.authorizations, campaignId, id)
    requires s.authorizations[id].decidedBy.Some? && s.authorizations[id].snapshot.variants != []
    requires CurrentPayload(s, campaignId) == s.authorizations[id].snapshot
    requires r.contact.Some? && Present(r.contact.value.email)
    ensures Compose(s, campaignId, contactId, id, r).Ok?
    ensures WasPreviewed(s.authorizations, Compose(s, campaignId, contactId, id, r).value)
  {
    var loaded := LoadVariants(s.variants, campaignId);
    var payload := CurrentPayload(s, campaignId);
    assert |payload.variants| == |loaded|;
    FirstVariantIsReviewedFirst(s.variants, campaignId);
    assert payload.variants[0] == loaded[0].copy;
  }

  /** An eligible contact of an email campaign has an address. */
  lemma EligibleHasAddress(c: Campaign, r: Recipient)
    requires Eligibility(c, r) == Some([])
    requires IsEmailCampaign(c)
    ensures r.contact.Some? && Present(r.contact.value.email)
  {
    var contact := r.contact.value;
    var channel := ResolveOutreachChannel(c);
    var consentChannel := ConsentChannelFor(channel);
    var address := if consentChannel == ConsentStates.Email then contact.email else contact.phone;
    EligibleExactly(contact, r.leads, channel, if Present(address) then Some(LedgerFor(r, consentChannel)) else None);
  }

  /** `t` is `s` with the composed message added to the outbox; the campaign is marked sent unless the reply was lost. */
  ghost predicate Mails(s: Store, t: Store, campaignId: Text, contactId: Text, id: nat, r: Recipient, delivery: Delivery)
    requires campaignId in s.campaigns
  {
    && Compose(s, campaignId, contactId, id, r).Ok?
    && t.outbox == s.outbox + [Compose(s, campaignId, contactId, id, r).value]
    && delivery in {Accepted, ReplyLost}
    && t.campaigns == if delivery == ReplyLost then s.campaigns else SetStatus(s.campaigns, campaignId, SentCampaign)
  }

  ghost predicate OnlyStatusChanged(s: Store, t: Store, campaignId: Text) {
    && t.authorizations == s.authorizations
    && (|| t.campaigns == s.campaigns
        || t.campaigns == SetStatus(s.campaigns, campaignId, SuppressedCampaign)
        || t.campaigns == SetStatus(s.campaigns, campaignId, SentCampaign))
  }

  lemma FinishShape(s: Store, campaignId: Text, contactId: Text, id: nat, reasons: seq<Reason>, byEmail: bool,
                    r: Recipient, delivery: Delivery)
    requires campaignId in s.campaigns
    ensures var t := Finish(s, campaignId, contactId, id, reasons, byEmail, r, delivery).0;
            && OnlyStatusChanged(s, t, campaignId)
            && (t.outbox == s.outbox || (reasons == [] && byEmail && Mails(s, t, campaignId, contactId, id, r, delivery)))
  {
    hide Compose, SetStatus;
  }

  /** A mail is added only behind the gate, for an eligible contact of an email campaign. */
  ghost predicate MailsThrough(s: Store, t: Store, campaignId: Text, contactId: Text, r: Recipient, tie: nat,
                               delivery: Delivery, hashOf: Payload -> Digest)
  {
    && Clear(s, campaignId, tie, hashOf).Ok?
    && Eligibility(s.campaigns[campaignId], r) == Some([])
    && IsEmailCampaign(s.campaigns[campaignId])
    && Mails(s, t, campaignId, contactId, Clear(s, campaignId, tie, hashOf).value, r, delivery)
  }

  lemma {:induction false} SendShape(s: Store, campaignId: Text, contactId: Text, r: Recipient, tie: nat, delivery: Delivery,
                  hashOf: Payload -> Digest)
    ensures var t := Send(s, campaignId, contactId, r, tie, delivery, hashOf).0;
            && OnlyStatusChanged(s, t, campaignId)
            && (t.outbox == s.outbox || MailsThrough(s, t, campaignId, contactId, r, tie, delivery, hashOf))
  {
    hide Eligibility, IsEmailCampaign, Finish, Gate, GaAllowed, Mails, SetStatus;
    var cleared := Clear(s, campaignId, tie, hashOf);
    if cleared.Ok? && Eligibility(s.campaigns[campaignId], r).Some? {
      FinishShape(s, campaignId, contactId, cleared.value, Eligibility(s.campaigns[campaignId], r).value,
                  IsEmailCampaign(s.campaigns[campaignId]), r, delivery);
    }
  }

  lemma SetStatusKeepsIds(campaigns: map<Text, Campaign>, campaignId: Text, status: CampaignStatus)
    requires forall id | id in campaigns :: campaigns[id].id == id
    ensures forall id | id in SetStatus(campaigns, campaignId, status) :: SetStatus(campaigns, campaignId, status)[id].id == id
  {
  }

  lemma {:induction false} ClearShape(s: Store, campaignId: Text, tie: nat, hashOf: Payload -> Digest)
    requires Clear(s, campaignId, tie, hashOf).Ok?
    ensures campaignId in s.campaigns
    ensures s.campaigns[campaignId].status in {Approved, Scheduled}
    ensures GaAllowed(s.campaigns[campaignId])
    ensures Gate(s, campaignId, tie, hashOf) == Clear(s, campaignId, tie, hashOf)
  {
  }

  lemma {:induction false} GateOpens(s: Store, campaignId: Text, tie: nat, hashOf: Payload -> Digest)
    requires Injective(hashOf) && Sound(s, hashOf) && Clear(s, campaignId, tie, hashOf).Ok?
    ensures var id := Clear(s, campaignId, tie, hashOf).value;
            && IsLatestAuthorized(s.authorizations, campaignId, id)
            && CurrentPayload(s, campaignId) == s.authorizations[id].snapshot
            && s.authorizations[id].decidedBy.Some? && s.authorizations[id].snapshot.variants != []
  {
    ClearShape(s, campaignId, tie, hashOf);
    GateExact(s, campaignId, tie, hashOf);
    assert RowSound(s.authorizations[Gate(s, campaignId, tie, hashOf).value], hashOf);
  }

  lemma {:induction false} SendSound(s: Store, campaignId: Text, contactId: Text, r: Recipient, tie: nat, delivery: Delivery,
                  hashOf: Payload -> Digest)
    requires Injective(hashOf) && Sound(s, hashOf)
    ensures var t := Send(s, campaignId, contactId, r, tie, delivery, hashOf).0;
            Sound(t, hashOf) && t.authorizations == s.authorizations
  {
    var t := Send(s, campaignId, contactId, r, tie, delivery, hashOf).0;
    SendShape(s, campaignId, contactId, r, tie, delivery, hashOf);
    SetStatusKeepsIds(s.campaigns, campaignId, SuppressedCampaign);
    SetStatusKeepsIds(s.campaigns, campaignId, SentCampaign);
    if t.outbox != s.outbox {
      GateOpens(s, campaignId, tie, hashOf);
      EligibleHasAddress(s.campaigns[campaignId], r);
      ComposedIsPreviewed(s, campaignId, contactId, Clear(s, campaignId, tie, hashOf).value, r);
    }
  }

  lemma ClearErrors(s: Store, campaignId: Text, tie: nat, hashOf: Payload -> Digest)
    ensures var cleared := Clear(s, campaignId, tie, hashOf);
            cleared != Err(NoVariantToSend) && cleared != Err(NoAddress)
    ensures Clear(s, campaignId, tie, hashOf).Ok? ==> campaignId in s.campaigns
  {
    hide GaAllowed, SelectAuthorized;
  }

  /** The two errors after the gate that would be pipeline bugs never happen. */
  lemma {:induction false} PipelineErrorsUnreachable(ops: seq<Op>, campaignId: Text, contactId: Text, r: Recipient, tie: nat,
                                  delivery: Delivery, hashOf: Payload -> Digest)
    requires Injective(hashOf)
    ensures var outcome := Send(Run(ops, hashOf), campaignId, contactId, r, tie, delivery, hashOf).1;
            outcome != Err(NoVariantToSend) && outcome != Err(NoAddress)
  {
    hide Run, Sound, Clear, Eligibility, IsEmailCampaign, Compose, CurrentPayload;
    ClearErrors(Run(ops, hashOf), campaignId, tie, hashOf);
    RunSound(ops, hashOf);
    var s := Run(ops, hashOf);
    if Clear(s, campaignId, tie, hashOf).Ok? {
      var c := s.campaigns[campaignId];
      GateOpens(s, campaignId, tie, hashOf);
      if Eligibility(c, r) == Some([]) && IsEmailCampaign(c) {
        EligibleHasAddress(c, r);
        ComposedIsPreviewed(s, campaignId, contactId, Clear(s, campaignId, tie, hashOf).value, r);
      }
    }
  }

  lemma {:induction false} ApplySound(s: Store, op: Op, hashOf: Payload -> Digest)
    requires Injective(hashOf) && Sound(s, hashOf)
    ensures Sound(Apply(s, op, hashOf), hashOf)
    ensures Frozen(s.authorizations, Apply(s, op, hashOf).authorizations)
  {
    hide Request, Decide, Review, Send, WasPreviewed, RowSound;
    match op
    case RequestOp(id, actor) =>
      RequestSound(s, id, actor, hashOf);
    case DecideOp(id, decision, actor, via, note, at) =>
      if Decide(s, id, decision, actor, via, note, at, hashOf).Ok? {
        DecideSound(s, id, decision, actor, via, note, at, hashOf);
      }
    case ReviewOp(id, approve, actor) =>
      if Review(s, id, approve, actor, hashOf).Ok? { ReviewSound(s, id, approve, actor, hashOf); }
    case SendOp(id, contactId, r, tie, delivery) =>
      SendSound(s, id, contactId, r, tie, delivery, hashOf);
    case _ =>
  }

  lemma {:induction false} RunSound(ops: seq<Op>, hashOf: Payload -> Digest)
    requires Injective(hashOf)
    ensures Sound(Run(ops, hashOf), hashOf)
  {
    if ops != [] {
      RunSound(ops[..|ops| - 1], hashOf);
      ApplySound(Run(ops[..|ops| - 1], hashOf), ops[|ops| - 1], hashOf);
    }
  }

  // ---- Main results --------------------------------------------------------------

  /** Over every run, each mail that left is the one an owner previewed and authorized. */
  lemma {:induction false} SentIsWhatWasAuthorized(ops: seq<Op>, i: nat, hashOf: Payload -> Digest)
    requires Injective(hashOf)
    requires i < |Run(ops, hashOf).outbox|
    ensures var s := Run(ops, hashOf);
            var m := s.outbox[i];
            && m.authorizationId < |s.authorizations|
            && var row := s.authorizations[m.authorizationId];
            && row.status == Authorized
            && row.campaignId == m.campaignId == row.snapshot.campaignId
            && row.decidedBy.Some?
            && row.snapshot.variants != []
            && m.sender == row.snapshot.sender
            && var copy := row.snapshot.variants[0];
               && m.email.subject == (if copy.subject.Some? then copy.subject.value else row.snapshot.name)
               && m.email.body == copy.body && m.email.preheader == copy.preheader
               && m.email.cta == copy.cta && m.email.ctaUrl == copy.ctaUrl && m.email.privacyUrl == row.snapshot.privacyUrl
  {
    RunSound(ops, hashOf);
    var s := Run(ops, hashOf);
    assert WasPreviewed(s.authorizations, s.outbox[i]);
    assert RowSound(s.authorizations[s.outbox[i].authorizationId], hashOf);
  }

  /** A mail leaves only while the live campaign still is what was authorized, to a contact no rule forbids. */
  lemma {:induction false} MailLeavesOnlyThroughTheGate(ops: seq<Op>, campaignId: Text, contactId: Text, r: Recipient, tie: nat,
                                     delivery: Delivery, hashOf: Payload -> Digest)
    requires Injective(hashOf)
    ensures var s := Run(ops, hashOf);
            Send(s, campaignId, contactId, r, tie, delivery, hashOf).0.outbox != s.outbox ==>
              && campaignId in s.campaigns
              && s.campaigns[campaignId].status in {Approved, Scheduled}
              && Ready(s.campaigns[campaignId])
              && Eligibility(s.campaigns[campaignId], r) == Some([])
              && exists id: nat :: IsLatestAuthorized(s.authorizations, campaignId, id)
                   && Shows(s.authorizations[id].snapshot, s.campaigns[campaignId], LoadVariants(s.variants, campaignId), s.sender)
  {
    RunSound(ops, hashOf);
    hide Run, Ready;
    var s := Run(ops, hashOf);
    SendShape(s, campaignId, contactId, r, tie, delivery, hashOf);
    if Send(s, campaignId, contactId, r, tie, delivery, hashOf).0.outbox != s.outbox {
      ClearShape(s, campaignId, tie, hashOf);
      GateOpens(s, campaignId, tie, hashOf);
      GaAllowedExactly(s.campaigns[campaignId]);
      var row := s.authorizations[Clear(s, campaignId, tie, hashOf).value];
      PayloadShows(row.snapshot, s.campaigns[campaignId], LoadVariants(s.variants, campaignId), s.sender);
    }
  }

  /** Whatever follows, a row keeps its snapshot, and keeps its decision once it has one. */
  lemma {:induction false} DecisionsAreFinal(ops: seq<Op>, later: seq<Op>, hashOf: Payload -> Digest)
    requires Injective(hashOf)
    ensures Frozen(Run(ops, hashOf).authorizations, Run(ops + later, hashOf).authorizations)
    decreases |later|
  {
    if later == [] {
      assert ops + later == ops;
    } else {
      var n := |later| - 1;
      DecisionsAreFinal(ops, later[..n], hashOf);
      var all := ops + later;
      assert all[..|all| - 1] == ops + later[..n] && all[|all| - 1] == later[n];
      RunSound(ops + later[..n], hashOf);
      ApplySound(Run(ops + later[..n], hashOf), later[n], hashOf);
    }
  }

  function MailCount(outbox: seq<Sent>, campaignId: Text): nat {
    if outbox == [] then 0
    else (if outbox[|outbox| - 1].campaignId == campaignId then 1 else 0) + MailCount(outbox[..|outbox| - 1], campaignId)
  }

  function Clearance(s: Store, campaignId: Text): nat {
    if campaignId in s.campaigns && s.campaigns[campaignId].status in {Approved, Scheduled} then 1 else 0
  }

  lemma MailCountAppend(outbox: seq<Sent>, m: Sent, campaignId: Text)
    ensures MailCount(outbox + [m], campaignId) ==
            MailCount(outbox, campaignId) + if m.campaignId == campaignId then 1 else 0
  {
    assert (outbox + [m])[..|outbox + [m]| - 1] == outbox;
  }

  /** A step that is no send and makes the campaign sendable. */
  predicate Clears(s: Store, op: Op, campaignId: Text, hashOf: Payload -> Digest) {
    !op.SendOp? && Clearance(s, campaignId) == 0 && Clearance(Apply(s, op, hashOf), campaignId) == 1
  }

  /** A step after which the campaign is no longer sendable, without a mail. */
  predicate Withdraws(s: Store, op: Op, campaignId: Text, hashOf: Payload -> Digest) {
    var t := Apply(s, op, hashOf);
    t.outbox == s.outbox && Clearance(s, campaignId) == 1 && Clearance(t, campaignId) == 0
  }

  /** A send that mails and does not learn of it. */
  predicate LosesReply(s: Store, op: Op, campaignId: Text, hashOf: Payload -> Digest) {
    op.SendOp? && op.campaignId == campaignId && op.delivery == ReplyLost && Apply(s, op, hashOf).outbox != s.outbox
  }

  datatype Tally = Tally(cleared: nat, withdrawn: nat, lost: nat)

  function One(counts: bool): nat {
    if counts then 1 else 0
  }

  /** How often in a run the campaign became sendable, stopped being so unmailed, and had a reply lost. */
  function TallyOf(ops: seq<Op>, campaignId: Text, hashOf: Payload -> Digest): Tally {
    if ops == [] then Tally(0, 0, 0)
    else
      var (before, s, op) := (TallyOf(ops[..|ops| - 1], campaignId, hashOf), Run(ops[..|ops| - 1], hashOf), ops[|ops| - 1]);
      Tally(before.cleared + One(Clears(s, op, campaignId, hashOf)),
            before.withdrawn + One(Withdraws(s, op, campaignId, hashOf)),
            before.lost + One(LosesReply(s, op, campaignId, hashOf)))
  }

  /** What one step does to the mails of a campaign and its clearance. */
  ghost predicate Balanced(s: Store, op: Op, campaignId: Text, hashOf: Payload -> Digest) {
    var t := Apply(s, op, hashOf);
    MailCount(t.outbox, campaignId) + Clearance(t, campaignId) + One(Withdraws(s, op, campaignId, hashOf)) ==
    MailCount(s.outbox, campaignId) + Clearance(s, campaignId)
      + One(Clears(s, op, campaignId, hashOf)) + One(LosesReply(s, op, campaignId, hashOf))
  }

  lemma {:induction false} SendBalanced(s: Store, op: Op, campaignId: Text, hashOf: Payload -> Digest)
    requires op.SendOp?
    ensures Balanced(s, op, campaignId, hashOf)
  {
    hide Send, Clear, Eligibility, IsEmailCampaign, MailCount;
    var t := Apply(s, op, hashOf);
    SendShape(s, op.campaignId, op.contactId, op.recipient, op.tie, op.delivery, hashOf);
    if t.outbox != s.outbox {
      ClearShape(s, op.campaignId, op.tie, hashOf);
      MailCountAppend(s.outbox, t.outbox[|s.outbox|], campaignId);
      assert t.outbox == s.outbox + [t.outbox[|s.outbox|]];
    }
  }

  lemma QuietUnlessSend(s: Store, op: Op, hashOf: Payload -> Digest)
    requires !op.SendOp?
    ensures Apply(s, op, hashOf).outbox == s.outbox
  {
  }

  lemma {:induction false} StepBalanced(s: Store, op: Op, campaignId: Text, hashOf: Payload -> Digest)
    ensures Balanced(s, op, campaignId, hashOf)
  {
    if op.SendOp? {
      SendBalanced(s, op, campaignId, hashOf);
    } else {
      QuietUnlessSend(s, op, hashOf);
      hide Apply, MailCount;
    }
  }

  /** In every run the mails of a campaign are the times it became sendable by other steps than a send, less those
      it was withdrawn unmailed and the one still open, plus the mails whose reply was lost. */
  lemma {:induction false} OneMailPerClearance(ops: seq<Op>, campaignId: Text, hashOf: Payload -> Digest)
    ensures var (s, tally) := (Run(ops, hashOf), TallyOf(ops, campaignId, hashOf));
            MailCount(s.outbox, campaignId) + Clearance(s, campaignId) + tally.withdrawn == tally.cleared + tally.lost
  {
    if ops != [] {
      OneMailPerClearance(ops[..|ops| - 1], campaignId, hashOf);
      StepBalanced(Run(ops[..|ops| - 1], hashOf), ops[|ops| - 1], campaignId, hashOf);
      hide Clears, Withdraws, LosesReply, Apply;
    }
  }

  /** After a lost reply the caller sees an error and the campaign is as sendable as before, so the retry mails again. */
  lemma {:induction false} RetryMailsAgain(s: Store, campaignId: Text, contactId: Text, r: Recipient, tie: nat,
                                           hashOf: Payload -> Digest)
    requires Send(s, campaignId, contactId, r, tie, Accepted, hashOf).0.outbox != s.outbox
    ensures var (t, outcome) := Send(s, campaignId, contactId, r, tie, ReplyLost, hashOf);
            && outcome == Err(ProviderFailed) && t.campaigns == s.campaigns && |t.outbox| == |s.outbox| + 1
            && var (u, again) := Send(t, campaignId, contactId, r, tie, Accepted, hashOf);
               again == Ok(WasSent(true)) && u.outbox == t.outbox + [t.outbox[|s.outbox|]]
  {
    hide Eligibility, IsEmailCampaign, GaAllowed, SelectAuthorized, LoadVariants, FirstVariant, BuildPayload;
    var t := s.(outbox := s.outbox + [Compose(s, campaignId, contactId, Clear(s, campaignId, tie, hashOf).value, r).value]);
    assert Clear(t, campaignId, tie, hashOf) == Clear(s, campaignId, tie, hashOf);
  }

  const IMPORTED := Campaign([1], [2], Some([3]), EMAIL, Approved, None, None, None, OtherReadiness, None)
  const VARIANT := VariantRow([4], [1], 0, VariantCopy(None, None, None, None, [5], None, None, []))
  const NO_LEDGER := ConsentGate(None, [])
  const BUYER := Recipient(Some(Contact(true, Some("a@b.mx"), None, false)), [], NO_LEDGER, NO_LEDGER, NO_LEDGER, None)

  /** An import is approved, its one variant requested and authorized. */
  function Authorizing(): seq<Op> {
    [EditCampaign(IMPORTED), EditVariants([VARIANT]), RequestOp([1], [6]), DecideOp(0, Authorize, [7], [8], None, 0)]
  }

  function SendTo(delivery: Delivery): Op {
    SendOp([1], [9], BUYER, 0, delivery)
  }

  lemma RunSnoc(ops: seq<Op>, op: Op, hashOf: Payload -> Digest)
    ensures Run(ops + [op], hashOf) == Apply(Run(ops, hashOf), op, hashOf)
  {
    assert (ops + [op])[..|ops|] == ops;
  }

  lemma OneVariantLoaded()
    ensures LoadVariants([VARIANT], [1]) == [VARIANT] && FirstVariant([VARIANT], [1]) == Some(VARIANT)
  {
    assert [VARIANT][1..] == [];
  }

  /** The store once the import and its variant are there, with the given authorizations. */
  function Imported(authorizations: seq<Authorization>): Store {
    Store(map[[1] := IMPORTED], [VARIANT], [], authorizations, [], map[])
  }

  function Requested(hashOf: Payload -> Digest): Authorization {
    var payload := CurrentPayload(Imported([]), [1]);
    Authorization([1], Pending, hashOf(payload), payload, [6], None, None, None, None)
  }

  function Granted(hashOf: Payload -> Digest): Authorization {
    Requested(hashOf).(status := Authorized, decidedBy := Some([7]), decidedVia := Some([8]), decidedAt := Some(0))
  }

  lemma RequestedStore(hashOf: Payload -> Digest)
    ensures Apply(Imported([]), Authorizing()[2], hashOf) == Imported([Requested(hashOf)])
  {
    OneVariantLoaded();
    hide LoadVariants, BuildPayload, Send, Review, Decide;
  }

  lemma GrantedStore(hashOf: Payload -> Digest)
    ensures Apply(Imported([Requested(hashOf)]), Authorizing()[3], hashOf) == Imported([Granted(hashOf)])
  {
    hide LoadVariants, BuildPayload, Send, Review, Request;
  }

  lemma AuthorizedStore(hashOf: Payload -> Digest)
    ensures Run(Authorizing(), hashOf) == Imported([Granted(hashOf)])
  {
    var ops := Authorizing();
    assert Run([], hashOf) == EMPTY_STORE;
    RunSnoc([], ops[0], hashOf);
    RunSnoc(ops[..1], ops[1], hashOf);
    RunSnoc(ops[..2], ops[2], hashOf);
    RunSnoc(ops[..3], ops[3], hashOf);
    assert [] + [ops[0]] == ops[..1] && ops[..1] + [ops[1]] == ops[..2] && ops[..2] + [ops[2]] == ops[..3] && ops[..3] + [ops[3]] == ops;
    RequestedStore(hashOf);
    GrantedStore(hashOf);
    hide Run, LoadVariants, BuildPayload, Send, Review, Request, Decide, CurrentPayload;
  }

  lemma BuyerIsEligible()
    ensures Eligibility(IMPORTED, BUYER) == Some([]) && IsEmailCampaign(IMPORTED)
  {
    assert LowerCase(EMAIL) == EMAIL && EMAIL != SMS && EMAIL != PHONE && EMAIL != WHATSAPP;
    EligibleExactly(BUYER.contact.value, [], EMAIL, Some(NO_LEDGER));
    hide Reasons;
  }

  /** The authorized import opens the gate, and the send mails. */
  lemma ImportMails(hashOf: Payload -> Digest)
    ensures var s := Imported([Granted(hashOf)]);
            Send(s, [1], [9], BUYER, 0, Accepted, hashOf).0.outbox != s.outbox
  {
    OneVariantLoaded();
    BuyerIsEligible();
    var s := Imported([Granted(hashOf)]);
    hide LoadVariants, FirstVariant, BuildPayload, Eligibility, IsEmailCampaign;
    assert IsLatestAuthorized(s.authorizations, [1], 0);
    assert Clear(s, [1], 0, hashOf) == Ok(0);
  }

  /** The smallest such run: one approval, one lost reply, and the same mail twice. */
  lemma LostReplyMailsTwice(hashOf: Payload -> Digest)
    ensures var s := Run(Authorizing() + [SendTo(ReplyLost)] + [SendTo(Accepted)], hashOf);
            |s.outbox| == 2 && s.outbox[0] == s.outbox[1]
  {
    AuthorizedStore(hashOf);
    RunSnoc(Authorizing(), SendTo(ReplyLost), hashOf);
    RunSnoc(Authorizing() + [SendTo(ReplyLost)], SendTo(Accepted), hashOf);
    hide Run, Send, Authorizing;
    ImportMails(hashOf);
    RetryMailsAgain(Imported([Granted(hashOf)]), [1], [9], BUYER, 0, hashOf);
  }
}
