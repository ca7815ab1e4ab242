/** A send as the commands it is made of, with other sends and edits between any two of them.

  The rest of the project takes a send as one step. Here every read, the call of the mail provider and every
  write is a step of its own. Undisturbed the steps are that one step; disturbed they keep less.
 */
module SendSteps {
  import opened Options
  import opened CanonicalJson
  import opened CampaignPayload
  import opened SendGate
  import opened A = CampaignAuthorization

  /** Where a send stands. `edits` recalls how many edits there had been when the gate was passed. */
  datatype Phase =
    | Opened                                          // the campaign was read
    | Selected(id: nat)                               // the authorization was read
    | Passed(id: nat, edits: nat)                     // the hashes agreed
    | Eligible(id: nat, edits: nat, byEmail: bool)    // no rule speaks against the contact
    | Barred(reasons: seq<Reason>)                    // some rule does
    | Delivered(id: nat)                              // the provider answered
    | Recorded(status: CampaignStatus)                // the signal was written

  /** A send under way, with the campaign as it read it. */
  datatype Flight = Flight(campaignId: Text, contactId: Text, campaign: Campaign, phase: Phase)

  /** `edits` counts the edits of variants and sender so far. */
  datatype World = World(store: Store, flights: map<nat, Flight>, edits: nat)

  datatype Step =
    | Change(op: Op)
    | Open(f: nat, campaignId: Text, contactId: Text)
    | Select(f: nat, tie: nat)
    | Compare(f: nat)
    | Look(f: nat, r: Recipient)
    | Deliver(f: nat, r: Recipient, delivery: Delivery)
    | Record(f: nat)
    | Mark(f: nat)

  const EMPTY_WORLD := World(EMPTY_STORE, map[], 0)

  // ---- The steps -----------------------------------------------------------------------

  predicate Sendable(s: Store, campaignId: Text) {
    && campaignId in s.campaigns
    && Present(s.campaigns[campaignId].skuKey)
    && s.campaigns[campaignId].status in {Approved, Scheduled}
    && GaAllowed(s.campaigns[campaignId])
  }

  predicate Edits(op: Op) {
    op.EditVariants? || op.ChangeSender?
  }

  function Move(w: World, f: nat, phase: Phase): World
    requires f in w.flights
  {
    w.(flights := w.flights[f := w.flights[f].(phase := phase)])
  }

  /** The send ends, by an error or because it is done. */
  function Land(w: World, f: nat): World {
    w.(flights := w.flights - {f})
  }

  function PayloadNow(s: Store, flight: Flight): Payload {
    BuildPayload(flight.campaign, LoadVariants(s.variants, flight.campaignId), s.sender)
  }

  function CompareStep(w: World, f: nat, hashOf: Payload -> Digest): World
    requires f in w.flights && w.flights[f].phase.Selected?
  {
    var (s, flight) := (w.store, w.flights[f]);
    var id := flight.phase.id;
    if id < |s.authorizations| && hashOf(PayloadNow(s, flight)) == s.authorizations[id].payloadHash
    then Move(w, f, Passed(id, w.edits)) else Land(w, f)
  }

  function LookStep(w: World, f: nat, r: Recipient): World
    requires f in w.flights && w.flights[f].phase.Passed?
  {
    var (s, flight) := (w.store, w.flights[f]);
    if flight.campaignId !in s.campaigns then Land(w, f)
    else
      var c := s.campaigns[flight.campaignId];
      match Eligibility(c, r)
      case None => Land(w, f)
      case Some(reasons) =>
        Move(w, f, if reasons != [] then Barred(reasons) else Eligible(flight.phase.id, flight.phase.edits, IsEmailCampaign(c)))
  }

  function DeliverStep(w: World, f: nat, r: Recipient, delivery: Delivery): World
    requires f in w.flights && w.flights[f].phase.Eligible?
  {
    var (s, flight) := (w.store, w.flights[f]);
    if !flight.phase.byEmail then Move(w, f, Delivered(flight.phase.id))
    else if r.contact.Some? && r.contact.value.deleted then Land(w, f)
    else
      match ComposeFrom(s, flight.campaign, flight.campaignId, flight.contactId, flight.phase.id, r)
      case Err(_) => Land(w, f)
      case Ok(m) =>
        var t := w.(store := if delivery in {Accepted, ReplyLost} then s.(outbox := s.outbox + [m]) else s);
        if delivery in {Refused, ReplyLost} then Land(t, f) else Move(t, f, Delivered(flight.phase.id))
  }

  function RecordStep(w: World, f: nat): World
    requires f in w.flights && (w.flights[f].phase.Barred? || w.flights[f].phase.Delivered?)
  {
    var (s, flight) := (w.store, w.flights[f]);
    var (signal, status) :=
      if flight.phase.Barred? then (SuppressedSignal(flight.phase.reasons), SuppressedCampaign)
      else (DeliveredSignal(flight.phase.id), SentCampaign);
    Move(w.(store := s.(signals := RecordSignal(s.signals, (flight.campaignId, flight.contactId), signal))), f, Recorded(status))
  }

  function MarkStep(w: World, f: nat): World
    requires f in w.flights && w.flights[f].phase.Recorded?
  {
    var flight := w.flights[f];
    Land(w.(store := w.store.(campaigns := SetStatus(w.store.campaigns, flight.campaignId, flight.phase.status))), f)
  }


  /** A step that does not fit where its send stands changes nothing. */
  function Next(w: World, step: Step, hashOf: Payload -> Digest): World {
    match step
    case Change(op) =>
      if op.SendOp? then w
      else w.(store := Apply(w.store, op, hashOf), edits := if Edits(op) then w.edits + 1 else w.edits)
    case Open(f, campaignId, contactId) =>
      if f in w.flights || !Sendable(w.store, campaignId) then w
      else w.(flights := w.flights[f := Flight(campaignId, contactId, w.store.campaigns[campaignId], Opened)])
    case Select(f, tie) =>
      if f !in w.flights || !w.flights[f].phase.Opened? then w
      else
        var selected := SelectAuthorized(w.store.authorizations, w.flights[f].campaignId, tie);
        if selected.None? then Land(w, f) else Move(w, f, Selected(selected.value))
    case Compare(f) => if f in w.flights && w.flights[f].phase.Selected? then CompareStep(w, f, hashOf) else w
    case Look(f, r) => if f in w.flights && w.flights[f].phase.Passed? then LookStep(w, f, r) else w
    case Deliver(f, r, delivery) =>
      if f in w.flights && w.flights[f].phase.Eligible? then DeliverStep(w, f, r, delivery) else w
    case Record(f) =>
      if f in w.flights && (w.flights[f].phase.Barred? || w.flights[f].phase.Delivered?) then RecordStep(w, f) else w
    case Mark(f) => if f in w.flights && w.flights[f].phase.Recorded? then MarkStep(w, f) else w
  }

  function Run(w: World, steps: seq<Step>, hashOf: Payload -> Digest): World {
    if steps == [] then w else Next(Run(w, steps[..|steps| - 1], hashOf), steps[|steps| - 1], hashOf)
  }

  // ---- Undisturbed ---------------------------------------------------------------------

  /** The steps of one send up to the gate, and those behind it. */
  function ToTheGate(w: World, f: nat, campaignId: Text, contactId: Text, tie: nat, hashOf: Payload -> Digest): World {
    Next(Next(Next(w, Open(f, campaignId, contactId), hashOf), Select(f, tie), hashOf), Compare(f), hashOf)
  }

  function BehindTheGate(w: World, f: nat, r: Recipient, delivery: Delivery, hashOf: Payload -> Digest): World {
    Next(Next(Next(Next(w, Look(f, r), hashOf), Deliver(f, r, delivery), hashOf), Record(f), hashOf), Mark(f), hashOf)
  }

  lemma OneFlight(flights: map<nat, Flight>, f: nat, a: Flight, b: Flight)
    requires f !in flights
    ensures flights[f := a] - {f} == flights && flights[f := a][f := b] == flights[f := b] && flights - {f} == flights
  {
  }

  lemma GateAlone(w: World, f: nat, campaignId: Text, contactId: Text, tie: nat, hashOf: Payload -> Digest)
    requires f !in w.flights
    ensures var cleared := Clear(w.store, campaignId, tie, hashOf);
            ToTheGate(w, f, campaignId, contactId, tie, hashOf) ==
            if cleared.Err? then w
            else w.(flights := w.flights[f := Flight(campaignId, contactId, w.store.campaigns[campaignId], Passed(cleared.value, w.edits))])
  {
    hide GaAllowed, SelectAuthorized, BuildPayload, LoadVariants;
    if Sendable(w.store, campaignId) {
      var flight := Flight(campaignId, contactId, w.store.campaigns[campaignId], Opened);
      var selected := SelectAuthorized(w.store.authorizations, campaignId, tie);
      OneFlight(w.flights, f, flight, flight);
      if selected.Some? {
        var next := flight.(phase := Selected(selected.value));
        OneFlight(w.flights, f, flight, next);
        OneFlight(w.flights, f, next, flight.(phase := Passed(selected.value, w.edits)));
      }
    }
  }

  /** A delivered or barred send writes its signal and its status. */
  lemma WritesAlone(w: World, flights: map<nat, Flight>, f: nat, flight: Flight, hashOf: Payload -> Digest)
    requires f !in flights && w.flights == flights[f := flight] && (flight.phase.Barred? || flight.phase.Delivered?)
    ensures Next(Next(w, Record(f), hashOf), Mark(f), hashOf) ==
            w.(flights := flights,
               store := if flight.phase.Delivered? then AfterSend(w.store, flight.campaignId, flight.contactId, flight.phase.id)
                        else w.store.(signals := RecordSignal(w.store.signals, (flight.campaignId, flight.contactId), SuppressedSignal(flight.phase.reasons)),
                                      campaigns := SetStatus(w.store.campaigns, flight.campaignId, SuppressedCampaign)))
  {
    hide RecordSignal, SetStatus;
    var recorded := flight.(phase := Recorded(if flight.phase.Delivered? then SentCampaign else SuppressedCampaign));
    OneFlight(flights, f, flight, recorded);
    OneFlight(flights, f, recorded, recorded);
  }

  lemma GoneIsQuiet(w: World, f: nat, hashOf: Payload -> Digest)
    requires f !in w.flights
    ensures Next(w, Record(f), hashOf) == w && Next(w, Mark(f), hashOf) == w
    ensures forall r, delivery :: Next(w, Deliver(f, r, delivery), hashOf) == w
  {
  }

  /** The campaign is as the send read it, its status aside. */
  ghost predicate AsRead(s: Store, flight: Flight) {
    && flight.campaignId in s.campaigns
    && s.campaigns[flight.campaignId].(status := flight.campaign.status) == flight.campaign
  }

  lemma StatusUnread(s: Store, flight: Flight, contactId: Text, id: nat, r: Recipient)
    requires AsRead(s, flight)
    ensures Eligibility(s.campaigns[flight.campaignId], r) == Eligibility(flight.campaign, r)
    ensures IsEmailCampaign(s.campaigns[flight.campaignId]) == IsEmailCampaign(flight.campaign)
    ensures Compose(s, flight.campaignId, contactId, id, r) == ComposeFrom(s, flight.campaign, flight.campaignId, contactId, id, r)
  {
    hide Reasons, LowerCase;
  }

  lemma GoOnBarred(w: World, flights: map<nat, Flight>, f: nat, flight: Flight, r: Recipient, delivery: Delivery, hashOf: Payload -> Digest)
    requires f !in flights && w.flights == flights[f := flight] && flight.phase.Barred?
    ensures Next(w, Deliver(f, r, delivery), hashOf) == w
  {
  }

  lemma DeliverAlone(w: World, flights: map<nat, Flight>, f: nat, flight: Flight, r: Recipient, delivery: Delivery,
                     hashOf: Payload -> Digest)
    requires f !in flights && w.flights == flights[f := flight] && flight.phase.Eligible?
    requires AsRead(w.store, flight)
    requires r.contact.Some? ==> !r.contact.value.deleted
    ensures Next(Next(Next(w, Deliver(f, r, delivery), hashOf), Record(f), hashOf), Mark(f), hashOf) ==
            w.(flights := flights,
               store := Finish(w.store, flight.campaignId, flight.contactId, flight.phase.id, [], flight.phase.byEmail, r, delivery).0)
  {
    var t := Next(w, Deliver(f, r, delivery), hashOf);
    var delivered := flight.(phase := Delivered(flight.phase.id));
    OneFlight(flights, f, flight, delivered);
    StatusUnread(w.store, flight, flight.contactId, flight.phase.id, r);
    hide Compose;
    assert t.flights == flights || t.flights == flights[f := delivered] by { hide ComposeFrom; }
    if f in t.flights {
      WritesAlone(t, flights, f, delivered, hashOf);
    } else {
      GoneIsQuiet(t, f, hashOf);
    }
    hide ComposeFrom, AfterSend, RecordSignal, SetStatus, RecordStep, MarkStep;
  }

  lemma LookedIsNotDeleted(c: Campaign, r: Recipient)
    ensures Eligibility(c, r).Some? ==> r.contact.Some? && !r.contact.value.deleted
  {
  }

  function LookedUp(flight: Flight, reasons: seq<Reason>): Flight
    requires flight.phase.Passed?
  {
    flight.(phase := if reasons != [] then Barred(reasons)
                     else Eligible(flight.phase.id, flight.phase.edits, IsEmailCampaign(flight.campaign)))
  }

  lemma LookAlone(w: World, flights: map<nat, Flight>, f: nat, flight: Flight, r: Recipient, hashOf: Payload -> Digest)
    requires f !in flights && w.flights == flights[f := flight] && flight.phase.Passed? && AsRead(w.store, flight)
    ensures var reasons := Eligibility(flight.campaign, r);
            Next(w, Look(f, r), hashOf) ==
            w.(flights := if reasons.None? then flights else flights[f := LookedUp(flight, reasons.value)])
  {
    StatusUnread(w.store, flight, flight.contactId, 0, r);
    var reasons := Eligibility(flight.campaign, r);
    OneFlight(flights, f, flight, if reasons.Some? then LookedUp(flight, reasons.value) else flight);
    hide Eligibility, IsEmailCampaign;
  }

  lemma BehindAlone(w: World, flights: map<nat, Flight>, f: nat, flight: Flight, r: Recipient, delivery: Delivery,
                    hashOf: Payload -> Digest)
    requires f !in flights && w.flights == flights[f := flight] && flight.phase.Passed? && AsRead(w.store, flight)
    ensures var reasons := Eligibility(flight.campaign, r);
            BehindTheGate(w, f, r, delivery, hashOf) ==
            w.(flights := flights,
               store := if reasons.None? then w.store
                        else Finish(w.store, flight.campaignId, flight.contactId, flight.phase.id, reasons.value,
                                    IsEmailCampaign(flight.campaign), r, delivery).0)
  {
    var reasons := Eligibility(flight.campaign, r);
    LookAlone(w, flights, f, flight, r, hashOf);
    LookedIsNotDeleted(flight.campaign, r);
    hide Next, Eligibility, IsEmailCampaign;
    var u := Next(w, Look(f, r), hashOf);
    if reasons.None? {
      GoneIsQuiet(u, f, hashOf);
    } else if reasons.value != [] {
      GoOnBarred(u, flights, f, LookedUp(flight, reasons.value), r, delivery, hashOf);
      WritesAlone(u, flights, f, LookedUp(flight, reasons.value), hashOf);
    } else {
      hide Finish;
      DeliverAlone(u, flights, f, LookedUp(flight, []), r, delivery, hashOf);
    }
  }

  /** Undisturbed, the steps of a send are the one step they are taken for elsewhere, whatever its outcome. */
  lemma AloneIsSend(w: World, f: nat, campaignId: Text, contactId: Text, r: Recipient, tie: nat, delivery: Delivery,
                    hashOf: Payload -> Digest)
    requires f !in w.flights
    ensures BehindTheGate(ToTheGate(w, f, campaignId, contactId, tie, hashOf), f, r, delivery, hashOf) ==
            w.(store := Send(w.store, campaignId, contactId, r, tie, delivery, hashOf).0)
  {
    GateAlone(w, f, campaignId, contactId, tie, hashOf);
    var u := ToTheGate(w, f, campaignId, contactId, tie, hashOf);
    var cleared := Clear(w.store, campaignId, tie, hashOf);
    if cleared.Err? {
      GoneIsQuiet(w, f, hashOf);
      hide ToTheGate, Clear;
    } else {
      ClearErrors(w.store, campaignId, tie, hashOf);
      var flight := Flight(campaignId, contactId, w.store.campaigns[campaignId], Passed(cleared.value, w.edits));
      hide ToTheGate, BehindTheGate, Clear, Eligibility, Finish;
      BehindAlone(u, w.flights, f, flight, r, delivery, hashOf);
    }
  }

  // ---- What every interleaving keeps ------------------------------------------------------

  /** The gate was passed with this authorization. While no copy is edited the send still is what was approved;
      of the campaign as it read it, that holds for good. */
  ghost predicate ClearedBy(w: World, flight: Flight, id: nat, edits: nat) {
    && IsAuthorizedFor(w.store.authorizations, flight.campaignId, id)
    && edits <= w.edits
    && var snapshot := w.store.authorizations[id].snapshot;
    && snapshot.name == flight.campaign.name
    && snapshot.privacyUrl == ResolvePrivacyUrl(flight.campaign.skuKey)
    && (edits == w.edits ==> PayloadNow(w.store, flight) == snapshot)
  }

  ghost predicate FlightSound(w: World, flight: Flight) {
    match flight.phase
    case Opened => true
    case Selected(id) => IsAuthorizedFor(w.store.authorizations, flight.campaignId, id)
    case Passed(id, edits) => ClearedBy(w, flight, id, edits)
    case Eligible(id, edits, _) => ClearedBy(w, flight, id, edits)
    case Barred(_) => true
    case Delivered(_) => true
    case Recorded(_) => true
  }

  /** The mail names an authorization of its campaign that some owner gave, and its privacy notice. */
  ghost predicate Traced(rows: seq<Authorization>, m: Sent) {
    && IsAuthorizedFor(rows, m.campaignId, m.authorizationId)
    && rows[m.authorizationId].decidedBy.Some?
    && rows[m.authorizationId].snapshot.variants != []
    && m.email.privacyUrl == rows[m.authorizationId].snapshot.privacyUrl
  }

  ghost predicate FlightsSound(w: World) {
    forall f | f in w.flights :: FlightSound(w, w.flights[f])
  }

  ghost predicate AllTraced(s: Store) {
    forall i | 0 <= i < |s.outbox| :: Traced(s.authorizations, s.outbox[i])
  }

  function Unsent(s: Store): Store {
    s.(outbox := [])
  }

  ghost predicate Sound(w: World, hashOf: Payload -> Digest) {
    A.Sound(Unsent(w.store), hashOf) && FlightsSound(w) && AllTraced(w.store)
  }

  /** Of the store no operation but a send looks at the outbox. */
  lemma OutboxUnread(s: Store, op: Op, hashOf: Payload -> Digest)
    requires !op.SendOp?
    ensures Apply(Unsent(s), op, hashOf) == Unsent(Apply(s, op, hashOf))
  {
    hide BuildPayload, LoadVariants, SupersedePending, GaAllowed, Send;
    if op.ReviewOp? {
      var approved := s.(campaigns := SetStatus(s.campaigns, op.campaignId, Approved));
      assert Unsent(approved) == Unsent(s).(campaigns := approved.campaigns);
      RequestUnsent(approved, op.campaignId, op.actor, hashOf);
      hide Request, SetStatus;
    }
  }

  lemma RequestUnsent(s: Store, campaignId: Text, requestedBy: Text, hashOf: Payload -> Digest)
    ensures var r := Request(s, campaignId, requestedBy, hashOf);
            Request(Unsent(s), campaignId, requestedBy, hashOf) == if r.Ok? then Ok(Unsent(r.value)) else r
  {
    hide BuildPayload, LoadVariants, SupersedePending;
  }

  lemma CopyKept(s: Store, op: Op, hashOf: Payload -> Digest)
    requires !op.SendOp? && !Edits(op)
    ensures Apply(s, op, hashOf).variants == s.variants && Apply(s, op, hashOf).sender == s.sender
  {
    hide BuildPayload, LoadVariants, SupersedePending, GaAllowed, Send;
  }

  /** What a send under way rests on. */
  ghost predicate Undisturbed(w: World, t: World) {
    && Frozen(w.store.authorizations, t.store.authorizations)
    && w.edits <= t.edits
    && (t.edits == w.edits ==> t.store.variants == w.store.variants && t.store.sender == w.store.sender)
  }

  lemma FlightKept(w: World, t: World, flight: Flight)
    requires Undisturbed(w, t) && FlightSound(w, flight)
    ensures FlightSound(t, flight)
  {
    hide BuildPayload, LoadVariants, ResolvePrivacyUrl;
  }

  lemma MailsKept(w: World, t: World)
    requires Undisturbed(w, t) && AllTraced(w.store) && t.store.outbox == w.store.outbox
    ensures AllTraced(t.store)
  {
    forall i | 0 <= i < |t.store.outbox| ensures Traced(t.store.authorizations, t.store.outbox[i]) {
      assert Traced(w.store.authorizations, w.store.outbox[i]);
    }
  }

  lemma {:induction false} ChangeSound(w: World, op: Op, hashOf: Payload -> Digest)
    requires Injective(hashOf) && Sound(w, hashOf) && !op.SendOp?
    ensures Sound(Next(w, Change(op), hashOf), hashOf)
  {
    var t := Next(w, Change(op), hashOf);
    OutboxUnread(w.store, op, hashOf);
    QuietUnlessSend(w.store, op, hashOf);
    if !Edits(op) { CopyKept(w.store, op, hashOf); }
    ApplySound(Unsent(w.store), op, hashOf);
    hide Apply, A.Sound, FlightSound, Traced, Frozen;
    assert Undisturbed(w, t);
    hide Undisturbed;
    forall f | f in t.flights ensures FlightSound(t, t.flights[f]) {
      FlightKept(w, t, w.flights[f]);
    }
    MailsKept(w, t);
  }

  /** The send a step belongs to. */
  function Of(step: Step): Option<nat> {
    match step
    case Change(_) => None
    case Open(f, _, _) => Some(f)
    case Select(f, _) => Some(f)
    case Compare(f) => Some(f)
    case Look(f, _) => Some(f)
    case Deliver(f, _, _) => Some(f)
    case Record(f) => Some(f)
    case Mark(f) => Some(f)
  }

  /** The step adds the composed mail of an eligible send. */
  ghost predicate Mails(w: World, step: Step, t: World) {
    && step.Deliver? && step.f in w.flights && w.flights[step.f].phase.Eligible?
    && var flight := w.flights[step.f];
    && var composed := ComposeFrom(w.store, flight.campaign, flight.campaignId, flight.contactId, flight.phase.id, step.r);
    && composed.Ok? && t.store.outbox == w.store.outbox + [composed.value]
  }

  /** The steps of a send leave other sends alone, and of the store change outbox, signals and a status. */
  lemma StepEffect(w: World, step: Step, hashOf: Payload -> Digest)
    requires Of(step).Some?
    ensures var t := Next(w, step, hashOf);
            && t.edits == w.edits && t.store.authorizations == w.store.authorizations
            && t.store.variants == w.store.variants && t.store.sender == w.store.sender
            && (t.store.outbox == w.store.outbox || Mails(w, step, t))
            && (forall g | g in t.flights && Some(g) != Of(step) :: g in w.flights && t.flights[g] == w.flights[g])
  {
    hide ComposeFrom, Eligibility, IsEmailCampaign, SelectAuthorized, PayloadNow, SetStatus, Sendable;
  }

  lemma CampaignsEffect(w: World, step: Step, hashOf: Payload -> Digest)
    requires Of(step).Some? && forall id | id in w.store.campaigns :: w.store.campaigns[id].id == id
    ensures var t := Next(w, step, hashOf); forall id | id in t.store.campaigns :: t.store.campaigns[id].id == id
  {
    if step.Mark? && step.f in w.flights && w.flights[step.f].phase.Recorded? {
      SetStatusKeepsIds(w.store.campaigns, w.flights[step.f].campaignId, w.flights[step.f].phase.status);
    }
    hide ComposeFrom, Eligibility, IsEmailCampaign, SelectAuthorized, PayloadNow, SetStatus, Sendable;
  }

  /** A passed comparison shows that the campaign as read, and the copy of now, are what was approved. */
  lemma {:induction false} CompareSound(w: World, f: nat, hashOf: Payload -> Digest)
    requires Injective(hashOf) && A.Sound(Unsent(w.store), hashOf)
    requires f in w.flights && FlightSound(w, w.flights[f]) && w.flights[f].phase.Selected?
    requires f in Next(w, Compare(f), hashOf).flights
    ensures var t := Next(w, Compare(f), hashOf); FlightSound(t, t.flights[f])
  {
    var (s, flight) := (w.store, w.flights[f]);
    assert RowSound(Unsent(s).authorizations[flight.phase.id], hashOf);
    hide LoadVariants, ResolvePrivacyUrl, A.Sound;
    assert hashOf(PayloadNow(s, flight)) == hashOf(s.authorizations[flight.phase.id].snapshot)
      ==> PayloadNow(s, flight) == s.authorizations[flight.phase.id].snapshot;
  }

  lemma {:induction false} OwnSound(w: World, step: Step, f: nat, hashOf: Payload -> Digest)
    requires Injective(hashOf) && Sound(w, hashOf) && Of(step) == Some(f) && f in Next(w, step, hashOf).flights
    ensures FlightSound(Next(w, step, hashOf), Next(w, step, hashOf).flights[f])
  {
    hide A.Sound, Injective, BuildPayload, LoadVariants, ResolvePrivacyUrl, Eligibility, IsEmailCampaign, ComposeFrom, SetStatus, Sendable, AllTraced;
    if step.Compare? && f in w.flights && w.flights[f].phase.Selected? {
      CompareSound(w, f, hashOf);
      hide Next, FlightSound;
    } else {
      StepEffect(w, step, hashOf);
      hide Mails;
    }
  }

  lemma MailTraced(w: World, step: Step, t: World, hashOf: Payload -> Digest)
    requires Sound(w, hashOf) && Mails(w, step, t)
    ensures Traced(w.store.authorizations, t.store.outbox[|w.store.outbox|])
  {
    var flight := w.flights[step.f];
    assert FlightSound(w, flight);
    assert RowSound(Unsent(w.store).authorizations[flight.phase.id], hashOf);
    hide FirstVariant, PayloadNow, ResolvePrivacyUrl;
  }

  lemma {:induction false} NextSound(w: World, step: Step, hashOf: Payload -> Digest)
    requires Injective(hashOf) && Sound(w, hashOf)
    ensures Sound(Next(w, step, hashOf), hashOf)
  {
    var t := Next(w, step, hashOf);
    if step.Change? {
      hide Sound;
      if !step.op.SendOp? { ChangeSound(w, step.op, hashOf); }
    } else {
      StepEffect(w, step, hashOf);
      CampaignsEffect(w, step, hashOf);
      hide Next, Mails, FlightSound, Traced, RowSound;
      forall f | f in t.flights ensures FlightSound(t, t.flights[f]) {
        if Of(step) == Some(f) { OwnSound(w, step, f, hashOf); } else { FlightKept(w, t, w.flights[f]); }
      }
      if t.store.outbox == w.store.outbox {
        MailsKept(w, t);
      } else {
        MailTraced(w, step, t, hashOf);
      }
    }
  }

  lemma {:induction false} RunSound(steps: seq<Step>, hashOf: Payload -> Digest)
    requires Injective(hashOf)
    ensures Sound(Run(EMPTY_WORLD, steps, hashOf), hashOf)
  {
    hide Next;
    if steps != [] {
      RunSound(steps[..|steps| - 1], hashOf);
      hide Sound;
      NextSound(Run(EMPTY_WORLD, steps[..|steps| - 1], hashOf), steps[|steps| - 1], hashOf);
    }
  }

  // ---- What is mailed ------------------------------------------------------------------------

  /** Two variants give the same mail under a campaign's name. */
  predicate ShownAlike(v: VariantCopy, u: VariantCopy, name: Text) {
    && v.subject.GetOr(name) == u.subject.GetOr(name) && v.body == u.body && v.preheader == u.preheader
    && v.cta == u.cta && v.ctaUrl == u.ctaUrl
  }

  lemma {:induction false} UneditedIsPreviewed(w: World, flight: Flight, id: nat, edits: nat, r: Recipient, hashOf: Payload -> Digest)
    requires A.Sound(Unsent(w.store), hashOf) && ClearedBy(w, flight, id, edits)
    requires ComposeFrom(w.store, flight.campaign, flight.campaignId, flight.contactId, id, r).Ok?
    ensures var m := ComposeFrom(w.store, flight.campaign, flight.campaignId, flight.contactId, id, r).value;
            var row := w.store.authorizations[id];
            && FirstVariant(w.store.variants, flight.campaignId).Some?
            && (WasPreviewed(w.store.authorizations, m) <==>
                  && w.store.sender == row.snapshot.sender
                  && ShownAlike(FirstVariant(w.store.variants, flight.campaignId).value.copy, row.snapshot.variants[0], row.snapshot.name))
            && (edits == w.edits ==> WasPreviewed(w.store.authorizations, m))
  {
    var row := Unsent(w.store).authorizations[id];
    assert RowSound(row, hashOf);
    FirstVariantIsReviewedFirst(w.store.variants, flight.campaignId);
    var loaded := LoadVariants(w.store.variants, flight.campaignId);
    hide A.Sound, LoadVariants, FirstVariant, ResolvePrivacyUrl;
    if edits == w.edits {
      assert PayloadNow(w.store, flight).variants == row.snapshot.variants;
      assert row.snapshot.variants[0] == loaded[0].copy;
    }
  }

  /** In every interleaving a mail names an authorization its campaign had when the gate was passed, and shows its
      name and privacy notice. It is the preview of what was approved if and only if the sender and the first
      variant of the moment of delivery look as approved; so it is unless some copy was edited since the gate. */
  lemma {:induction false} MailedCopyExactly(steps: seq<Step>, step: Step, hashOf: Payload -> Digest)
    requires Injective(hashOf)
    requires var w := Run(EMPTY_WORLD, steps, hashOf); Next(w, step, hashOf).store.outbox != w.store.outbox
    ensures var w := Run(EMPTY_WORLD, steps, hashOf);
            var outbox := Next(w, step, hashOf).store.outbox;
            && |outbox| == |w.store.outbox| + 1 && outbox[..|w.store.outbox|] == w.store.outbox
            && var (m, rows) := (outbox[|w.store.outbox|], w.store.authorizations);
               && Traced(rows, m)
               && FirstVariant(w.store.variants, m.campaignId).Some?
               && var snapshot := rows[m.authorizationId].snapshot;
                  && (WasPreviewed(rows, m) <==>
                        && w.store.sender == snapshot.sender
                        && ShownAlike(FirstVariant(w.store.variants, m.campaignId).value.copy, snapshot.variants[0], snapshot.name))
                  && step.Deliver? && step.f in w.flights && w.flights[step.f].phase.Eligible?
                  && (w.flights[step.f].phase.edits == w.edits ==> WasPreviewed(rows, m))
  {
    RunSound(steps, hashOf);
    var w := Run(EMPTY_WORLD, steps, hashOf);
    if step.Change? {
      hide Run;
      if !step.op.SendOp? { QuietUnlessSend(w.store, step.op, hashOf); }
    } else {
      StepEffect(w, step, hashOf);
      hide Run, Next;
      MailTraced(w, step, Next(w, step, hashOf), hashOf);
      var flight := w.flights[step.f];
      assert FlightSound(w, flight);
      UneditedIsPreviewed(w, flight, flight.phase.id, flight.phase.edits, step.r, hashOf);
      hide A.Sound, WasPreviewed, Traced, FirstVariant, ShownAlike;
    }
  }

  // ---- How often ---------------------------------------------------------------------------

  /** The sends of the campaign that have passed the gate and not mailed yet. */
  function Cleared(w: World, campaignId: Text): set<nat> {
    set f | f in w.flights && w.flights[f].campaignId == campaignId && (w.flights[f].phase.Passed? || w.flights[f].phase.Eligible?)
  }

  predicate PassesGate(w: World, step: Step, campaignId: Text, hashOf: Payload -> Digest) {
    && step.Compare? && step.f in w.flights && w.flights[step.f].phase.Selected? && w.flights[step.f].campaignId == campaignId
    && step.f in Next(w, step, hashOf).flights
  }

  /** How often a send of the campaign passed the gate. */
  function Passes(steps: seq<Step>, campaignId: Text, hashOf: Payload -> Digest): nat {
    if steps == [] then 0
    else
      var earlier := steps[..|steps| - 1];
      Passes(earlier, campaignId, hashOf) + One(PassesGate(Run(EMPTY_WORLD, earlier, hashOf), steps[|steps| - 1], campaignId, hashOf))
  }

  lemma ClearedEffect(w: World, step: Step, campaignId: Text, hashOf: Payload -> Digest)
    ensures var t := Next(w, step, hashOf);
            && (!PassesGate(w, step, campaignId, hashOf) ==> Cleared(t, campaignId) <= Cleared(w, campaignId))
            && (PassesGate(w, step, campaignId, hashOf) ==> Cleared(t, campaignId) <= Cleared(w, campaignId) + {step.f})
            && (Mails(w, step, t) && w.flights[step.f].campaignId == campaignId ==>
                  step.f in Cleared(w, campaignId) && step.f !in Cleared(t, campaignId))
  {
    hide ComposeFrom, Eligibility, IsEmailCampaign, SelectAuthorized, PayloadNow, SetStatus, Sendable, Apply, GaAllowed;
  }

  lemma {:induction false} PassIsSpent(w: World, step: Step, campaignId: Text, hashOf: Payload -> Digest)
    ensures var t := Next(w, step, hashOf);
            MailCount(t.store.outbox, campaignId) + |Cleared(t, campaignId)| <=
            MailCount(w.store.outbox, campaignId) + |Cleared(w, campaignId)| + One(PassesGate(w, step, campaignId, hashOf))
  {
    var t := Next(w, step, hashOf);
    ClearedEffect(w, step, campaignId, hashOf);
    var (before, after) := (Cleared(w, campaignId), Cleared(t, campaignId));
    if step.Change? {
      if !step.op.SendOp? { QuietUnlessSend(w.store, step.op, hashOf); }
      Fewer(after, before);
    } else {
      StepEffect(w, step, hashOf);
      hide Next, Cleared, MailCount, ComposeFrom;
      if t.store.outbox != w.store.outbox {
        var flight := w.flights[step.f];
        var m := ComposeFrom(w.store, flight.campaign, flight.campaignId, flight.contactId, flight.phase.id, step.r).value;
        ComposedFor(w.store, flight, step.r);
        MailCountAppend(w.store.outbox, m, campaignId);
        if flight.campaignId == campaignId { Fewer(after, before - {step.f}); } else { Fewer(after, before); }
      } else if PassesGate(w, step, campaignId, hashOf) {
        Fewer(after, before + {step.f});
      } else {
        Fewer(after, before);
      }
    }
  }

  lemma ComposedFor(s: Store, flight: Flight, r: Recipient)
    requires flight.phase.Eligible? || flight.phase.Passed?
    ensures var m := ComposeFrom(s, flight.campaign, flight.campaignId, flight.contactId, flight.phase.id, r);
            m.Ok? ==> m.value.campaignId == flight.campaignId
  {
  }

  lemma Fewer(a: set<nat>, b: set<nat>)
    requires a <= b
    ensures |a| <= |b|
  {
    assert b == a + (b - a);
  }

  /** In every interleaving each passing of the gate is good for one mail at most. */
  lemma {:induction false} OneMailPerPass(steps: seq<Step>, campaignId: Text, hashOf: Payload -> Digest)
    ensures var w := Run(EMPTY_WORLD, steps, hashOf);
            MailCount(w.store.outbox, campaignId) + |Cleared(w, campaignId)| <= Passes(steps, campaignId, hashOf)
  {
    if steps == [] {
      assert Cleared(EMPTY_WORLD, campaignId) == {};
    } else {
      var earlier := steps[..|steps| - 1];
      OneMailPerPass(earlier, campaignId, hashOf);
      PassIsSpent(Run(EMPTY_WORLD, earlier, hashOf), steps[|steps| - 1], campaignId, hashOf);
      hide Next, Cleared, PassesGate, MailCount;
    }
  }

  // ---- What interleaving breaks ---------------------------------------------------------------

  /** The send, taken alone, would mail. */
  ghost predicate WouldMail(s: Store, campaignId: Text, contactId: Text, r: Recipient, tie: nat, hashOf: Payload -> Digest) {
    Send(s, campaignId, contactId, r, tie, Accepted, hashOf).0.outbox != s.outbox
  }

  lemma {:induction false} WouldMailFacts(s: Store, campaignId: Text, contactId: Text, r: Recipient, tie: nat, hashOf: Payload -> Digest)
    requires WouldMail(s, campaignId, contactId, r, tie, hashOf)
    ensures Clear(s, campaignId, tie, hashOf).Ok? && campaignId in s.campaigns && Clearance(s, campaignId) == 1
    ensures var c := s.campaigns[campaignId];
            && Eligibility(c, r) == Some([]) && IsEmailCampaign(c)
            && ComposeFrom(s, c, campaignId, contactId, Clear(s, campaignId, tie, hashOf).value, r).Ok?
  {
    SendShape(s, campaignId, contactId, r, tie, Accepted, hashOf);
    hide Send;
    ClearShape(s, campaignId, tie, hashOf);
    hide Clear, Eligibility, IsEmailCampaign, ComposeFrom;
  }

  /** The send that passed the gate for this contact, on the campaign as it is. */
  function AtTheGate(s: Store, campaignId: Text, contactId: Text, id: nat, edits: nat): Flight
    requires campaignId in s.campaigns
  {
    Flight(campaignId, contactId, s.campaigns[campaignId], Passed(id, edits))
  }

  /** A send that passed the gate mails, though the campaign has been marked sent since. */
  lemma BehindMails(w: World, flights: map<nat, Flight>, f: nat, flight: Flight, r: Recipient, hashOf: Payload -> Digest)
    requires f !in flights && w.flights == flights[f := flight] && flight.phase.Passed? && AsRead(w.store, flight)
    requires Eligibility(flight.campaign, r) == Some([]) && IsEmailCampaign(flight.campaign)
    requires ComposeFrom(w.store, flight.campaign, flight.campaignId, flight.contactId, flight.phase.id, r).Ok?
    ensures var t := BehindTheGate(w, f, r, Accepted, hashOf);
            && t.flights == flights && t.edits == w.edits
            && t.store.variants == w.store.variants && t.store.sender == w.store.sender
            && t.store.campaigns == SetStatus(w.store.campaigns, flight.campaignId, SentCampaign)
            && t.store.outbox == w.store.outbox + [ComposeFrom(w.store, flight.campaign, flight.campaignId, flight.contactId, flight.phase.id, r).value]
  {
    BehindAlone(w, flights, f, flight, r, Accepted, hashOf);
    StatusUnread(w.store, flight, flight.contactId, flight.phase.id, r);
    hide BehindTheGate, Eligibility, IsEmailCampaign, ComposeFrom, Compose, AsRead;
  }

  lemma BothPass(w: World, f: nat, g: nat, campaignId: Text, a: Text, b: Text, tie: nat, hashOf: Payload -> Digest)
    requires f !in w.flights && g !in w.flights && f != g && campaignId in w.store.campaigns
    requires Clear(w.store, campaignId, tie, hashOf).Ok?
    ensures var id := Clear(w.store, campaignId, tie, hashOf).value;
            ToTheGate(ToTheGate(w, f, campaignId, a, tie, hashOf), g, campaignId, b, tie, hashOf) ==
            w.(flights := w.flights[g := AtTheGate(w.store, campaignId, b, id, w.edits)][f := AtTheGate(w.store, campaignId, a, id, w.edits)])
  {
    hide Clear, ToTheGate;
    GateAlone(w, f, campaignId, a, tie, hashOf);
    var u := ToTheGate(w, f, campaignId, a, tie, hashOf);
    GateAlone(u, g, campaignId, b, tie, hashOf);
  }

  /** Of two sends at the gate, the second finds the campaign as it read it but for the status. */
  lemma SecondUnaware(s: Store, t: Store, flight: Flight, r: Recipient)
    requires flight.phase.Passed? && AsRead(s, flight)
    requires t.campaigns == SetStatus(s.campaigns, flight.campaignId, SentCampaign)
    requires t.variants == s.variants && t.sender == s.sender
    ensures AsRead(t, flight)
    ensures ComposeFrom(t, flight.campaign, flight.campaignId, flight.contactId, flight.phase.id, r) ==
            ComposeFrom(s, flight.campaign, flight.campaignId, flight.contactId, flight.phase.id, r)
  {
    hide FirstVariant, ResolvePrivacyUrl;
  }

  /** Two sends that both pass the gate before either has marked the campaign both mail: one approval, two mails,
      and no reply lost. */
  lemma {:induction false} RacingSendsMailTwice(w: World, f: nat, g: nat, campaignId: Text, a: Text, b: Text, forA: Recipient,
                                                forB: Recipient, tie: nat, hashOf: Payload -> Digest)
    requires f !in w.flights && g !in w.flights && f != g
    requires WouldMail(w.store, campaignId, a, forA, tie, hashOf) && WouldMail(w.store, campaignId, b, forB, tie, hashOf)
    ensures var u := ToTheGate(ToTheGate(w, f, campaignId, a, tie, hashOf), g, campaignId, b, tie, hashOf);
            var v := BehindTheGate(BehindTheGate(u, f, forA, Accepted, hashOf), g, forB, Accepted, hashOf);
            && v.flights == w.flights
            && Clearance(w.store, campaignId) == 1
            && MailCount(v.store.outbox, campaignId) == MailCount(w.store.outbox, campaignId) + 2
  {
    WouldMailFacts(w.store, campaignId, a, forA, tie, hashOf);
    WouldMailFacts(w.store, campaignId, b, forB, tie, hashOf);
    var (s, id) := (w.store, Clear(w.store, campaignId, tie, hashOf).value);
    var (first, second) := (AtTheGate(s, campaignId, a, id, w.edits), AtTheGate(s, campaignId, b, id, w.edits));
    assert AsRead(s, first) && AsRead(s, second);
    BothPass(w, f, g, campaignId, a, b, tie, hashOf);
    var u := ToTheGate(ToTheGate(w, f, campaignId, a, tie, hashOf), g, campaignId, b, tie, hashOf);
    ComposedFor(s, first, forA);
    ComposedFor(s, second, forB);
    hide *;
    BehindMails(u, w.flights[g := second], f, first, forA, hashOf);
    var v := BehindTheGate(u, f, forA, Accepted, hashOf);
    SecondUnaware(s, v.store, second, forB);
    BehindMails(v, w.flights, g, second, forB, hashOf);
    MailCountAppend(s.outbox, v.store.outbox[|s.outbox|], campaignId);
    var t := BehindTheGate(v, g, forB, Accepted, hashOf);
    MailCountAppend(v.store.outbox, t.store.outbox[|v.store.outbox|], campaignId);
  }

  /** An eligible send mails the first variant there is at its delivery. */
  lemma DeliversNow(w: World, f: nat, r: Recipient, row: VariantRow, hashOf: Payload -> Digest)
    requires f in w.flights && w.flights[f].phase.Eligible? && w.flights[f].phase.byEmail
    requires r.contact.Some? && !r.contact.value.deleted && Present(r.contact.value.email)
    requires FirstVariant(w.store.variants, w.flights[f].campaignId) == Some(row)
    ensures var outbox := Next(w, Deliver(f, r, Accepted), hashOf).store.outbox;
            && |outbox| == |w.store.outbox| + 1
            && outbox[|w.store.outbox|].email.body == row.copy.body
            && outbox[|w.store.outbox|].authorizationId == w.flights[f].phase.id
  {
    hide FirstVariant, ResolvePrivacyUrl;
  }

  lemma EditsInFlight(w: World, rows: seq<VariantRow>, hashOf: Payload -> Digest)
    ensures Next(w, Change(EditVariants(rows)), hashOf) == w.(store := w.store.(variants := rows), edits := w.edits + 1)
  {
  }

  /** Copy edited after the gate is mailed under the authorization of the copy it replaced. */
  lemma {:induction false} EditInFlightIsMailed(w: World, f: nat, campaignId: Text, contactId: Text, r: Recipient, tie: nat,
                                                rows: seq<VariantRow>, row: VariantRow, hashOf: Payload -> Digest)
    requires f !in w.flights && WouldMail(w.store, campaignId, contactId, r, tie, hashOf)
    requires FirstVariant(rows, campaignId) == Some(row)
    ensures var u := Next(ToTheGate(w, f, campaignId, contactId, tie, hashOf), Look(f, r), hashOf);
            var edited := Next(u, Change(EditVariants(rows)), hashOf);
            var outbox := Next(edited, Deliver(f, r, Accepted), hashOf).store.outbox;
            && |outbox| == |w.store.outbox| + 1
            && outbox[|w.store.outbox|].email.body == row.copy.body
            && Clear(w.store, campaignId, tie, hashOf) == Ok(outbox[|w.store.outbox|].authorizationId)
  {
    WouldMailFacts(w.store, campaignId, contactId, r, tie, hashOf);
    GateAlone(w, f, campaignId, contactId, tie, hashOf);
    var flight := AtTheGate(w.store, campaignId, contactId, Clear(w.store, campaignId, tie, hashOf).value, w.edits);
    hide WouldMail, Clear, Eligibility, IsEmailCampaign, FirstVariant, ToTheGate, Next;
    var u := ToTheGate(w, f, campaignId, contactId, tie, hashOf);
    LookAlone(u, w.flights, f, flight, r, hashOf);
    LookedIsNotDeleted(flight.campaign, r);
    EditsInFlight(Next(u, Look(f, r), hashOf), rows, hashOf);
    DeliversNow(Next(Next(u, Look(f, r), hashOf), Change(EditVariants(rows)), hashOf), f, r, row, hashOf);
  }
}
