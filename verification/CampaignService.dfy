/** The services as they run: rows read and written one statement at a time. */
module CampaignService {
  import opened Options
  import opened CanonicalJson
  import opened CampaignPayload
  import opened SendGate
  import opened Suppressions
  import ConsentStates
  import A = CampaignAuthorization
  import C = ConsentService
  import O = Outreach

  /** A sound row's hash differs from that of a payload exactly when the payload differs from its snapshot. */
  lemma StaleExactly(row: A.Authorization, current: Payload, digest: seq<Byte> -> Digest)
    requires CollisionFree(digest) && A.RowSound(row, Hashing(digest))
    ensures HashPayload(current, digest) != row.payloadHash <==> current != row.snapshot
  {
    HashExact(current, row.snapshot, digest);
    hide HashPayload;
  }

  class Service {
    var campaigns: map<Text, Campaign>
    var variants: seq<VariantRow>
    var sender: Text
    var authorizations: seq<A.Authorization>
    var outbox: seq<A.Sent>
    var signals: map<(Text, Text), A.Signal>
    const digest: seq<Byte> -> Digest
    /** Whom consent and suppression are asked of. */
    const consent: C.Service

    constructor (digest: seq<Byte> -> Digest, consent: C.Service)
      ensures this.digest == digest && this.consent == consent && State() == A.EMPTY_STORE
    {
      this.digest, this.consent := digest, consent;
      campaigns, variants, sender := map[], [], [];
      authorizations, outbox, signals := [], [], map[];
    }

    function State(): A.Store
      reads this
    {
      A.Store(campaigns, variants, sender, authorizations, outbox, signals)
    }

    /** The canonical hash under the service's digest. */
    function HashOf(): Payload -> Digest {
      Hashing(digest)
    }

    /** The recipient as the consent and suppression tables describe it now. */
    function RecipientNow(contact: Option<Contact>, leads: seq<Lead>, unsubscribeUrl: Option<Text>): A.Recipient
      reads consent
    {
      O.RecipientOf(consent.State(), consent.suppressions, contact, leads, unsubscribeUrl)
    }

    method Request(campaignId: Text, requestedBy: Text) returns (r: Result<nat, A.Error>)
      modifies this`authorizations
      ensures match A.Request(old(State()), campaignId, requestedBy, HashOf())
              case Ok(t) => State() == t && r == Ok(|old(authorizations)|)
              case Err(e) => State() == old(State()) && r == Err(e)
    {
      hide A.SupersedePending, HashPayload, BuildPayload, LoadVariants;
      if campaignId !in campaigns {
        return Err(A.CampaignMissing);
      }
      var rows := LoadVariants(variants, campaignId);
      if |rows| == 0 {
        return Err(A.NothingToReview);
      }
      var payload := BuildPayload(campaigns[campaignId], rows, sender);
      var payloadHash := HashPayload(payload, digest);
      authorizations := A.SupersedePending(authorizations, campaignId);
      authorizations := authorizations + [
        A.Authorization(campaignId, A.Pending, payloadHash, payload, requestedBy, None, None, None, None)];
      return Ok(|authorizations| - 1);
    }

    /** The stored row, its previews, and whether the campaign has moved on since. */
    method Preview(id: nat) returns (r: Result<(seq<A.Email>, bool), A.Error>)
      ensures id >= |authorizations| ==> r == Err(A.AuthorizationMissing)
      ensures id < |authorizations| ==>
                var row := authorizations[id];
                if row.campaignId !in campaigns then r == Err(A.CampaignMissing)
                else
                  && r.Ok?
                  && |r.value.0| == |row.snapshot.variants|
                  && (forall k | 0 <= k < |r.value.0| :: r.value.0[k] == A.PreviewEmail(row.snapshot, row.snapshot.variants[k]))
                  && (CollisionFree(digest) && A.RowSound(row, HashOf()) ==>
                        (r.value.1 <==> A.CurrentPayload(State(), row.campaignId) != row.snapshot))
    {
      if id >= |authorizations| {
        return Err(A.AuthorizationMissing);
      }
      var row := authorizations[id];
      if row.campaignId !in campaigns {
        return Err(A.CampaignMissing);
      }
      var current := BuildPayload(campaigns[row.campaignId], LoadVariants(variants, row.campaignId), sender);
      var stale := HashPayload(current, digest) != row.payloadHash;
      ghost var exact := CollisionFree(digest) && A.RowSound(row, HashOf());
      if exact {
        StaleExactly(row, current, digest);
      }
      hide HashPayload, CollisionFree, A.RowSound, BuildPayload, LoadVariants, A.PreviewEmail;
      var vs := row.snapshot.variants;
      var emails := seq(|vs|, k requires 0 <= k < |vs| => A.PreviewEmail(row.snapshot, vs[k]));
      return Ok((emails, stale));
    }

    method Decide(id: nat, decision: A.Decision, actor: Text, via: Text, note: Option<Text>, at: nat)
      returns (r: Result<A.Authorization, A.Error>)
      modifies this`authorizations, this`campaigns
      ensures match A.Decide(old(State()), id, decision, actor, via, note, at, HashOf())
              case Ok(t) => State() == t && id < |t.authorizations| && r == Ok(t.authorizations[id])
              case Err(e) => State() == old(State()) && r == Err(e)
    {
      if id >= |authorizations| {
        return Err(A.AuthorizationMissing);
      }
      var row := authorizations[id];
      if row.status != A.Pending {
        return Err(A.NotPending);
      }
      var trimmed := A.TrimmedNote(note);
      if decision == A.Reject && !Present(trimmed) {
        return Err(A.NoteRequired);
      }
      if decision == A.Authorize {
        if row.campaignId !in campaigns {
          return Err(A.CampaignMissing);
        }
        var rows := LoadVariants(variants, row.campaignId);
        var current := HashPayload(BuildPayload(campaigns[row.campaignId], rows, sender), digest);
        if current != row.payloadHash {
          return Err(A.ContentChanged);
        }
      }
      var updated := row.(status := if decision == A.Authorize then A.Authorized else A.Rejected,
                          decidedBy := Some(actor), decidedVia := Some(via), decisionNote := trimmed, decidedAt := Some(at));
      authorizations := authorizations[id := updated];
      if decision == A.Reject {
        campaigns := A.SetStatus(campaigns, row.campaignId, RejectedCampaign);
      }
      return Ok(updated);
    }

    method Review(campaignId: Text, approve: bool, actor: Text) returns (r: Result<(), A.Error>)
      modifies this`authorizations, this`campaigns
      ensures match A.Review(old(State()), campaignId, approve, actor, HashOf())
              case Ok(t) => State() == t && r == Ok(())
              case Err(e) => State() == old(State()) && r == Err(e)
    {
      if campaignId !in campaigns {
        return Err(A.CampaignMissing);
      }
      if !Present(campaigns[campaignId].skuKey) {
        return Err(A.NotAnImport);
      }
      if !approve {
        campaigns := A.SetStatus(campaigns, campaignId, RejectedCampaign);
        return Ok(());
      }
      if !A.GaAllowed(campaigns[campaignId]) {
        return Err(A.GaBlocked);
      }
      campaigns := A.SetStatus(campaigns, campaignId, Approved);
      var _ := Request(campaignId, actor);
      return Ok(());
    }

    /** The authorized row of the campaign that was decided last. */
    method SelectAuthorized(campaignId: Text) returns (r: Option<nat>)
      ensures r.Some? ==> A.IsLatestAuthorized(authorizations, campaignId, r.value)
      ensures r.None? ==> forall j | 0 <= j < |authorizations| :: !A.IsAuthorizedFor(authorizations, campaignId, j)
    {
      r := None;
      for i := 0 to |authorizations|
        invariant r.Some? ==> r.value < i && A.IsAuthorizedFor(authorizations, campaignId, r.value)
        invariant forall j | 0 <= j < i && A.IsAuthorizedFor(authorizations, campaignId, j) ::
                    r.Some? && A.DecidedAt(authorizations[j]) <= A.DecidedAt(authorizations[r.value])
      {
        if A.IsAuthorizedFor(authorizations, campaignId, i) {
          if r.None? || A.DecidedAt(authorizations[r.value]) <= A.DecidedAt(authorizations[i]) {
            r := Some(i);
          }
        }
      }
    }

    method AssertSendAuthorized(campaignId: Text) returns (r: Result<nat, A.Error>, ghost tie: nat)
      requires campaignId in campaigns
      ensures r == A.Gate(State(), campaignId, tie, HashOf())
      ensures r.Ok? ==>
                && A.IsLatestAuthorized(authorizations, campaignId, r.value)
                && HashPayload(A.CurrentPayload(State(), campaignId), digest) == authorizations[r.value].payloadHash
      ensures r == Err(A.NoAuthorization) <==> forall j | 0 <= j < |authorizations| :: !A.IsAuthorizedFor(authorizations, campaignId, j)
    {
      var selected := SelectAuthorized(campaignId);
      tie := selected.GetOr(0);
      if selected.None? {
        return Err(A.NoAuthorization), tie;
      }
      var rows := LoadVariants(variants, campaignId);
      var current := HashPayload(BuildPayload(campaigns[campaignId], rows, sender), digest);
      if current != authorizations[selected.value].payloadHash {
        return Err(A.ContentChanged), tie;
      }
      return Ok(selected.value), tie;
    }

    method RecordSignal(campaignId: Text, contactId: Text, signal: A.Signal)
      modifies this`signals
      ensures signals == A.RecordSignal(old(signals), (campaignId, contactId), signal)
    {
      if (campaignId, contactId) !in signals {
        signals := signals[(campaignId, contactId) := signal];
      }
    }

    method DispatchCampaignEmail(campaignId: Text, contactId: Text, id: nat, r: A.Recipient, delivery: A.Delivery)
      returns (outcome: Result<bool, A.Error>)
      requires campaignId in campaigns
      modifies this`outbox
      ensures match A.Compose(old(State()), campaignId, contactId, id, r)
              case Err(e) => outcome == Err(e) && outbox == old(outbox)
              case Ok(m) =>
                && outcome == (if delivery in {A.Refused, A.ReplyLost} then Err(A.ProviderFailed) else Ok(delivery == A.Accepted))
                && outbox == if delivery in {A.Accepted, A.ReplyLost} then old(outbox) + [m] else old(outbox)
    {
      var row := FirstVariant(variants, campaignId);
      if r.contact.None? || !Present(r.contact.value.email) {
        return Err(A.NoAddress);
      }
      if row.None? {
        return Err(A.NoVariantToSend);
      }
      var copy := row.value.copy;
      var campaign := campaigns[campaignId];
      var email := A.Email(copy.subject.GetOr(campaign.name), copy.body, copy.preheader, copy.cta, copy.ctaUrl,
                           r.unsubscribeUrl, ResolvePrivacyUrl(campaign.skuKey));
      if delivery == A.Refused {
        return Err(A.ProviderFailed);
      }
      if delivery != A.DryRun {
        outbox := outbox + [A.Sent(campaignId, contactId, id, sender, r.contact.value.email.value, email)];
      }
      if delivery == A.ReplyLost {
        return Err(A.ProviderFailed);
      }
      return Ok(delivery == A.Accepted);
    }

    /** Looks the contact's address up in the consent ledger and the suppression list, and applies the rules. */
    method CheckEligibility(campaignId: Text, contact: Option<Contact>, leads: seq<Lead>, unsubscribeUrl: Option<Text>)
      returns (reasons: Option<seq<Reason>>)
      requires campaignId in campaigns && consent.SuppressionsValid()
      ensures reasons == A.Eligibility(campaigns[campaignId], RecipientNow(contact, leads, unsubscribeUrl))
    {
      if contact.None? || contact.value.deleted {
        return None;
      }
      var channel := ResolveOutreachChannel(campaigns[campaignId]);
      var consentChannel := ConsentChannelFor(channel);
      var address := contact.value.phone;
      if consentChannel.Email? {
        address := contact.value.email;
      }
      var gate := None;
      if Present(address) {
        gate := LookUp(address.value, consentChannel);
        assert gate.value == A.LedgerFor(RecipientNow(contact, leads, unsubscribeUrl), consentChannel);
      }
      hide Reasons, O.GateFor;
      var eligible, found, normalized := EvaluateContactEligibility(contact.value, leads, channel, gate);
      return Some(found);
    }

    method LookUp(address: string, channel: ConsentStates.Channel) returns (gate: Option<ConsentGate>)
      requires consent.SuppressionsValid() && address != ""
      ensures gate == Some(O.GateFor(consent.State(), consent.suppressions, Some(address), channel))
    {
      var record := consent.GetConsent(address, channel);
      var entries := consent.CheckSuppression(address, One(channel));
      gate := Some(ConsentGate(if record.Some? then Some(record.value.status) else None, ReasonsOf(entries)));
    }

    /** Every check before the contact is looked at. */
    method ClearToSend(campaignId: Text) returns (r: Result<nat, A.Error>, ghost tie: nat)
      ensures r == A.Clear(State(), campaignId, tie, HashOf())
      ensures r.Ok? ==> campaignId in campaigns && A.IsLatestAuthorized(authorizations, campaignId, r.value)
    {
      hide A.GaAllowed, A.Gate;
      tie := 0;
      if campaignId !in campaigns {
        return Err(A.CampaignMissing), tie;
      }
      var campaign := campaigns[campaignId];
      if !Present(campaign.skuKey) {
        return Err(A.NotAnImport), tie;
      }
      if campaign.status != Approved && campaign.status != Scheduled {
        return Err(A.NotApproved), tie;
      }
      if !A.GaAllowed(campaign) {
        return Err(A.GaBlocked), tie;
      }
      r, tie := AssertSendAuthorized(campaignId);
    }

    method AttemptSend(campaignId: Text, contactId: Text, contact: Option<Contact>, leads: seq<Lead>,
                       unsubscribeUrl: Option<Text>, delivery: A.Delivery)
      returns (outcome: Result<A.Outcome, A.Error>)
      requires consent.SuppressionsValid()
      modifies this`outbox, this`signals, this`campaigns
      ensures exists tie: nat ::
                (State(), outcome) == A.Send(old(State()), campaignId, contactId, RecipientNow(contact, leads, unsubscribeUrl),
                                             tie, delivery, HashOf())
    {
      ghost var r := RecipientNow(contact, leads, unsubscribeUrl);
      hide O.RecipientOf, A.Clear, A.Eligibility, A.Finish;
      var cleared, tie := ClearToSend(campaignId);
      if cleared.Err? {
        outcome := Err(cleared.error);
      } else {
        outcome := SendCleared(campaignId, contactId, cleared.value, contact, leads, unsubscribeUrl, delivery);
      }
      assert (State(), outcome) == A.Send(old(State()), campaignId, contactId, r, tie, delivery, HashOf());
      assert r == RecipientNow(contact, leads, unsubscribeUrl);
    }

    /** The rest of a send once the gate has returned an authorization. */
    method SendCleared(campaignId: Text, contactId: Text, id: nat, contact: Option<Contact>, leads: seq<Lead>,
                       unsubscribeUrl: Option<Text>, delivery: A.Delivery)
      returns (outcome: Result<A.Outcome, A.Error>)
      requires campaignId in campaigns && consent.SuppressionsValid()
      modifies this`outbox, this`signals, this`campaigns
      ensures var r := RecipientNow(contact, leads, unsubscribeUrl);
              (State(), outcome) ==
              match A.Eligibility(old(campaigns)[campaignId], r)
              case None => (old(State()), Err(A.ContactMissing))
              case Some(reasons) =>
                A.Finish(old(State()), campaignId, contactId, id, reasons, A.IsEmailCampaign(old(campaigns)[campaignId]), r, delivery)
    {
      hide A.Compose, A.Eligibility;
      var found := CheckEligibility(campaignId, contact, leads, unsubscribeUrl);
      if found.None? {
        return Err(A.ContactMissing);
      }
      if |found.value| > 0 {
        RecordSignal(campaignId, contactId, A.SuppressedSignal(found.value));
        campaigns := A.SetStatus(campaigns, campaignId, SuppressedCampaign);
        return Ok(A.WasSuppressed(found.value));
      }
      var mailed := false;
      if LowerCase(ResolveOutreachChannel(campaigns[campaignId])) == EMAIL {
        var sent := DispatchCampaignEmail(campaignId, contactId, id, RecipientNow(contact, leads, unsubscribeUrl), delivery);
        if sent.Err? {
          return Err(sent.error);
        }
        mailed := sent.value;
      }
      RecordSignal(campaignId, contactId, A.DeliveredSignal(id));
      campaigns := A.SetStatus(campaigns, campaignId, SentCampaign);
      return Ok(A.WasSent(mailed));
    }
  }
}
