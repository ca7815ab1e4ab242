/** Campaigns, consent and suppression together: to whom a mail may leave.

  The campaign store, the consent ledger and the suppression list change side by side; a send reads all three.
 */
module Outreach {
  import opened Options
  import opened ConsentStates
  import opened CanonicalJson
  import opened CampaignPayload
  import opened SendGate
  import opened Suppressions
  import A = CampaignAuthorization
  import L = ConsentLedger

  datatype World = World(campaigns: A.Store, ledger: L.Ledger, suppressions: seq<SuppressionEntry>)

  const EMPTY_WORLD := World(A.EMPTY_STORE, L.EMPTY_LEDGER, [])

  datatype Op =
    | CampaignOp(step: A.Op)
    | ConsentOp(change: L.Op)
    | SuppressOp(id: nat, identifier: string, channel: SuppressionChannel, reason: string)
    | UnsuppressOp(id: nat)
    | SendOp(campaignId: Text, contactId: Text, contact: Option<Contact>, leads: seq<Lead>, unsubscribeUrl: Option<Text>,
             tie: nat, delivery: A.Delivery)

  /** The hash of a payload and that of a token. */
  datatype Digests = Digests(payload: Payload -> Digest, token: L.Token -> L.Hash)

  // ---- Sending -------------------------------------------------------------------------

  function ConsentStatus(ledger: L.Ledger, address: string, channel: Channel): Option<Status> {
    L.StatusOf(ledger, L.FindRecord(ledger.records, L.Normalize(address), channel))
  }

  /** What the consent and suppression lookups find for an address; nothing is looked up without one. */
  function GateFor(ledger: L.Ledger, suppressions: seq<SuppressionEntry>, address: Option<string>, channel: Channel): ConsentGate {
    if !Present(address) then ConsentGate(None, [])
    else ConsentGate(ConsentStatus(ledger, address.value, channel),
                     ReasonsOf(Covering(suppressions, L.Normalize(address.value), One(channel))))
  }

  function EmailOf(contact: Option<Contact>): Option<string> {
    if contact.Some? then contact.value.email else None
  }

  function PhoneOf(contact: Option<Contact>): Option<string> {
    if contact.Some? then contact.value.phone else None
  }

  function RecipientOf(ledger: L.Ledger, suppressions: seq<SuppressionEntry>, contact: Option<Contact>, leads: seq<Lead>,
                       unsubscribeUrl: Option<Text>): A.Recipient
  {
    A.Recipient(contact, leads,
                GateFor(ledger, suppressions, EmailOf(contact), Email),
                GateFor(ledger, suppressions, PhoneOf(contact), Sms),
                GateFor(ledger, suppressions, PhoneOf(contact), WhatsApp),
                unsubscribeUrl)
  }

  /** The campaign operation a step amounts to: a send looks the recipient up first. */
  function CampaignStep(w: World, op: Op): Option<A.Op> {
    match op
    case CampaignOp(step) => if step.SendOp? then None else Some(step)
    case SendOp(campaignId, contactId, contact, leads, url, tie, delivery) =>
      Some(A.SendOp(campaignId, contactId, RecipientOf(w.ledger, w.suppressions, contact, leads, url), tie, delivery))
    case _ => None
  }

  function Next(w: World, op: Op, d: Digests): World {
    World(
      if CampaignStep(w, op).Some? then A.Apply(w.campaigns, CampaignStep(w, op).value, d.payload) else w.campaigns,
      if op.ConsentOp? then L.Apply(w.ledger, op.change, d.token) else w.ledger,
      match op
      case SuppressOp(id, identifier, channel, reason) => AddEntry(w.suppressions, id, identifier, channel, reason)
      case UnsuppressOp(id) => RemoveEntry(w.suppressions, id)
      case _ => w.suppressions)
  }

  function Run(ops: seq<Op>, d: Digests): World {
    if ops == [] then EMPTY_WORLD else Next(Run(ops[..|ops| - 1], d), ops[|ops| - 1], d)
  }

  // ---- The parts of a run --------------------------------------------------------------

  function CampaignOps(ops: seq<Op>, d: Digests): seq<A.Op> {
    if ops == [] then []
    else
      var earlier := ops[..|ops| - 1];
      var step := CampaignStep(Run(earlier, d), ops[|ops| - 1]);
      CampaignOps(earlier, d) + (if step.Some? then [step.value] else [])
  }

  function ConsentOps(ops: seq<Op>): seq<L.Op> {
    if ops == [] then []
    else
      var last := ops[|ops| - 1];
      ConsentOps(ops[..|ops| - 1]) + (if last.ConsentOp? then [last.change] else [])
  }

  /** The campaign store of a combined run is that of a campaign run, so all that is proved of those holds here. */
  lemma {:induction false} CampaignsAreARun(ops: seq<Op>, d: Digests)
    ensures Run(ops, d).campaigns == A.Run(CampaignOps(ops, d), d.payload)
    decreases |ops|
  {
    hide A.Apply, CampaignStep;
    if ops != [] {
      var earlier := ops[..|ops| - 1];
      CampaignsAreARun(earlier, d);
      var step := CampaignStep(Run(earlier, d), ops[|ops| - 1]);
      if step.Some? {
        assert CampaignOps(ops, d)[..|CampaignOps(earlier, d)|] == CampaignOps(earlier, d);
      } else {
        assert CampaignOps(ops, d) == CampaignOps(earlier, d);
      }
    }
  }

  lemma {:induction false} LedgerIsARun(ops: seq<Op>, d: Digests)
    ensures Run(ops, d).ledger == L.Run(ConsentOps(ops), d.token)
    decreases |ops|
  {
    hide L.Apply, CampaignStep, A.Apply;
    if ops != [] {
      var earlier := ops[..|ops| - 1];
      LedgerIsARun(earlier, d);
      if ops[|ops| - 1].ConsentOp? {
        assert ConsentOps(ops)[..|ConsentOps(earlier)|] == ConsentOps(earlier);
      } else {
        assert ConsentOps(ops) == ConsentOps(earlier);
      }
    }
  }

  lemma RunStep(ops: seq<Op>, n: nat, d: Digests)
    requires n < |ops|
    ensures Run(ops[..n + 1], d) == Next(Run(ops[..n], d), ops[n], d)
  {
    assert ops[..n + 1][..n] == ops[..n];
  }

  lemma PrefixTwice(ops: seq<Op>, n: nat, m: nat)
    requires m <= n <= |ops|
    ensures ops[..n][..m] == ops[..m]
  {
  }

  // ---- To whom a mail leaves ---------------------------------------------------------------

  /** Not suppressed for mail, and consent neither revoked nor awaiting confirmation. */
  ghost predicate MayReceive(w: World, address: string) {
    && (forall e | e in w.suppressions :: !Covers(e, L.Normalize(address), One(Email)))
    && ConsentStatus(w.ledger, address, Email) != Some(Revoked)
    && ConsentStatus(w.ledger, address, Email) != Some(PendingDoubleOptIn)
  }

  /** An eligible contact of an email campaign may receive mail at its address. */
  lemma EligibleMayReceive(w: World, c: Campaign, contact: Option<Contact>, leads: seq<Lead>, url: Option<Text>)
    requires var r := RecipientOf(w.ledger, w.suppressions, contact, leads, url);
             A.Eligibility(c, r) == Some([]) && A.IsEmailCampaign(c)
    ensures Present(EmailOf(contact)) && MayReceive(w, EmailOf(contact).value)
    ensures ConsentStatus(w.ledger, EmailOf(contact).value, Email).None? ==> contact.value.marketingConsent
  {
    var r := RecipientOf(w.ledger, w.suppressions, contact, leads, url);
    A.EligibleHasAddress(c, r);
    var address := contact.value.email.value;
    var gate := GateFor(w.ledger, w.suppressions, contact.value.email, Email);
    var channel := ResolveOutreachChannel(c);
    assert A.LedgerFor(r, Email) == gate;
    EligibleExactly(contact.value, leads, channel, Some(gate));
    hide Reasons, L.Normalize, L.FindRecord;
    NoneCovering(w.suppressions, L.Normalize(address), One(Email));
  }

  lemma NoneCovering(entries: seq<SuppressionEntry>, identifier: string, channel: SuppressionChannel)
    ensures ReasonsOf(Covering(entries, identifier, channel)) == [] ==> forall e | e in entries :: !Covers(e, identifier, channel)
  {
    hide Covering;
    forall e | e in entries && Covers(e, identifier, channel) ensures ReasonsOf(Covering(entries, identifier, channel)) != [] {
      CoveringExact(entries, identifier, channel, e);
      var covering := Covering(entries, identifier, channel);
      assert |ReasonsOf(covering)| == |covering| > 0;
    }
  }

  /** A step that mails is a send, and adds one mail, to an address that may receive it. */
  lemma MailedStep(w: World, op: Op, d: Digests)
    requires Next(w, op, d).campaigns.outbox != w.campaigns.outbox
    ensures op.SendOp? && Present(EmailOf(op.contact))
    ensures var outbox := Next(w, op, d).campaigns.outbox;
            && |outbox| == |w.campaigns.outbox| + 1 && outbox[..|w.campaigns.outbox|] == w.campaigns.outbox
            && outbox[|w.campaigns.outbox|].to == EmailOf(op.contact).value
            && MayReceive(w, outbox[|w.campaigns.outbox|].to)
  {
    OnlySendsMail(w, op, d);
    var r := RecipientOf(w.ledger, w.suppressions, op.contact, op.leads, op.unsubscribeUrl);
    var (s, t) := (w.campaigns, Next(w, op, d).campaigns);
    assert t == A.Send(s, op.campaignId, op.contactId, r, op.tie, op.delivery, d.payload).0;
    A.SendShape(s, op.campaignId, op.contactId, r, op.tie, op.delivery, d.payload);
    hide A.Send, A.Clear, Next, MayReceive, A.Eligibility, A.IsEmailCampaign;
    EligibleMayReceive(w, s.campaigns[op.campaignId], op.contact, op.leads, op.unsubscribeUrl);
  }

  lemma OnlySendsMail(w: World, op: Op, d: Digests)
    requires Next(w, op, d).campaigns.outbox != w.campaigns.outbox
    ensures op.SendOp?
  {
    hide A.Send, A.Request, A.Decide, A.Review;
    if op.CampaignOp? { A.QuietUnlessSend(w.campaigns, op.step, d.payload); }
  }

  lemma NoMailYet(d: Digests)
    ensures Run([], d).campaigns.outbox == []
  {
  }

  /** Over every run of consent, suppression, approval and send, the mail was sent at a step before which its
      address was neither suppressed nor revoked nor pending. */
  lemma {:induction false} MailRespectsConsent(ops: seq<Op>, i: nat, d: Digests) returns (n: nat)
    requires i < |Run(ops, d).campaigns.outbox|
    ensures n < |ops| && ops[n].SendOp?
    ensures |Run(ops[..n], d).campaigns.outbox| == i && |Run(ops[..n + 1], d).campaigns.outbox| == i + 1
    ensures MayReceive(Run(ops[..n], d), Run(ops, d).campaigns.outbox[i].to)
    decreases |ops|
  {
    hide *;
    NoMailYet(d);
    assert ops != [];
    var last := |ops| - 1;
    RunStep(ops, last, d);
    assert ops[..last + 1] == ops;
    var w := Run(ops[..last], d);
    if Next(w, ops[last], d).campaigns.outbox != w.campaigns.outbox {
      MailedStep(w, ops[last], d);
    }
    if i < |w.campaigns.outbox| {
      n := MailRespectsConsent(ops[..last], i, d);
      PrefixTwice(ops, last, n);
      PrefixTwice(ops, last, n + 1);
    } else {
      n := last;
    }
  }

  // ---- After a revocation ---------------------------------------------------------------------

  lemma {:induction false} ConsentOpsPrefix(ops: seq<Op>, n: nat)
    requires n <= |ops|
    ensures ConsentOps(ops[..n]) <= ConsentOps(ops)
    decreases |ops|
  {
    if n == |ops| {
      assert ops[..n] == ops;
    } else {
      ConsentOpsPrefix(ops[..|ops| - 1], n);
      assert ops[..|ops| - 1][..n] == ops[..n];
    }
  }

  /** Where a consent operation stands in the combined run. */
  lemma {:induction false} StepOf(ops: seq<Op>, p: nat) returns (q: nat)
    requires p < |ConsentOps(ops)|
    ensures q < |ops| && ops[q].ConsentOp? && ops[q].change == ConsentOps(ops)[p]
    ensures |ConsentOps(ops[..q])| == p
    decreases |ops|
  {
    var last := |ops| - 1;
    if p < |ConsentOps(ops[..last])| {
      q := StepOf(ops[..last], p);
      assert ops[..last][..q] == ops[..q];
    } else {
      q := last;
    }
  }

  lemma CountsGrow(ops: seq<Op>, a: nat, b: nat)
    requires a <= b <= |ops|
    ensures |ConsentOps(ops[..a])| <= |ConsentOps(ops[..b])|
  {
    assert ops[..b][..a] == ops[..a];
    ConsentOpsPrefix(ops[..b], a);
  }

  /** Later consent operations come from later steps. */
  lemma StepAfter(ops: seq<Op>, r: nat, n: nat, p: nat) returns (q: nat)
    requires r < n <= |ops| && ops[r].ConsentOp?
    requires |ConsentOps(ops[..r])| < p < |ConsentOps(ops[..n])|
    ensures r < q < n && ops[q].ConsentOp? && ops[q].change == ConsentOps(ops[..n])[p]
    ensures |ConsentOps(ops[..q])| == p
  {
    q := StepOf(ops[..n], p);
    assert ops[..n][..q] == ops[..q];
    if q <= r {
      CountsGrow(ops, q, r);
    }
  }

  lemma ConsentOpsAt(ops: seq<Op>, r: nat, n: nat)
    requires r < n <= |ops| && ops[r].ConsentOp?
    ensures var p := |ConsentOps(ops[..r])|;
            && p < |ConsentOps(ops[..n])| && ConsentOps(ops[..n])[p] == ops[r].change
            && ConsentOps(ops[..n])[..p] == ConsentOps(ops[..r])
  {
    assert ops[..n][..r + 1] == ops[..r + 1];
    ConsentOpsPrefix(ops[..n], r + 1);
    assert ops[..r + 1][..r] == ops[..r];
    assert ConsentOps(ops[..r + 1]) == ConsentOps(ops[..r]) + [ops[r].change];
  }

  /** Step `r` revokes mail to the identifier: a capture that names an identifier and a source. */
  predicate RevokesMail(ops: seq<Op>, r: nat, identifier: string) {
    && r < |ops| && ops[r].ConsentOp? && ops[r].change.CaptureOp?
    && var input := ops[r].change.input;
       input.action == Revoke && input.channel == Email && L.Normalize(input.identifier) == identifier && identifier != "" && input.source != ""
  }

  /** The recorded consent to mail once the first `n` steps are done. */
  function MailStatus(ops: seq<Op>, n: nat, identifier: string, d: Digests): Option<Status>
    requires n <= |ops|
  {
    L.StatusAt(Run(ops[..n], d).ledger, identifier, Email)
  }

  /** Step `j` grants mail anew: the status turns to granted by it, and it captures a grant, or confirms a token that
      was asked for after step `r`. */
  ghost predicate RegrantsMail(ops: seq<Op>, r: nat, j: nat, identifier: string, d: Digests) {
    && r < j < |ops| && ops[j].ConsentOp?
    && MailStatus(ops, j, identifier, d) != Some(Granted) && MailStatus(ops, j + 1, identifier, d) == Some(Granted)
    && match ops[j].change
       case CaptureOp(input, _, _, _) =>
         && L.Normalize(input.identifier) == identifier && input.channel == Email
         && (input.action == Grant || input.action == ConfirmDoubleOptIn)
       case ConfirmOp(token, _) =>
         exists k | r < k < j && ops[k].ConsentOp? :: L.Asks(ops[k].change, token, identifier, Email)
  }

  /** The status of the combined run is that of its consent operations. */
  lemma MailStatusAt(ops: seq<Op>, n: nat, identifier: string, d: Digests)
    requires n <= |ops|
    ensures MailStatus(ops, n, identifier, d) == L.StatusAt(L.Run(ConsentOps(ops[..n]), d.token), identifier, Email)
  {
    LedgerIsARun(ops[..n], d);
    hide Run, L.Run, ConsentOps;
  }

  /** Before and after a consent step the status is the one its operation finds and leaves. */
  lemma StatusAround(ops: seq<Op>, j: nat, n: nat, identifier: string, d: Digests)
    requires j < n <= |ops| && ops[j].ConsentOp?
    ensures var (earlier, p) := (ConsentOps(ops[..n]), |ConsentOps(ops[..j])|);
            && p < |earlier|
            && MailStatus(ops, j, identifier, d) == L.StatusAfter(earlier, p, identifier, Email, d.token)
            && MailStatus(ops, j + 1, identifier, d) == L.StatusAfter(earlier, p + 1, identifier, Email, d.token)
  {
    var (earlier, p) := (ConsentOps(ops[..n]), |ConsentOps(ops[..j])|);
    ConsentOpsAt(ops, j, n);
    ConsentOpsAt(ops, j, j + 1);
    assert ops[..j + 1][..j] == ops[..j];
    assert ConsentOps(ops[..j + 1]) == earlier[..p + 1];
    MailStatusAt(ops, j, identifier, d);
    MailStatusAt(ops, j + 1, identifier, d);
    hide MailStatus, L.StatusAt, L.Run, ConsentOps;
  }

  lemma RegrantStep(ops: seq<Op>, r: nat, n: nat, p: nat, identifier: string, d: Digests) returns (j: nat)
    requires r < n <= |ops| && ops[r].ConsentOp?
    requires L.Regrants(ConsentOps(ops[..n]), |ConsentOps(ops[..r])|, p, identifier, Email, d.token)
    ensures j < n && RegrantsMail(ops, r, j, identifier, d)
  {
    hide ConsentOps, L.Normalize, L.Asks, L.StatusAfter, MailStatus;
    var earlier := ConsentOps(ops[..n]);
    j := StepAfter(ops, r, n, p);
    StatusAround(ops, j, n, identifier, d);
    if earlier[p].ConfirmOp? {
      var q :| |ConsentOps(ops[..r])| < q < p && L.Asks(earlier[q], earlier[p].token, identifier, Email);
      var k := StepAfter(ops, r, n, q);
      if j <= k {
        CountsGrow(ops, j, k);
      }
    }
  }

  /** After a revocation no mail leaves to that address until consent is granted anew: by a captured grant, or by
      confirming a double opt-in that was asked for after the revocation. An earlier link does not help. */
  lemma {:induction false} NoMailAfterRevocation(ops: seq<Op>, r: nat, i: nat, identifier: string, d: Digests)
      returns (j: nat, n: nat)
    requires L.CollisionFree(d.token) && L.FreshTokens(ConsentOps(ops)) && RevokesMail(ops, r, identifier)
    requires |Run(ops[..r], d).campaigns.outbox| <= i < |Run(ops, d).campaigns.outbox|
    requires L.Normalize(Run(ops, d).campaigns.outbox[i].to) == identifier
    ensures j < n < |ops| && RegrantsMail(ops, r, j, identifier, d)
    ensures |Run(ops[..n], d).campaigns.outbox| == i && ops[n].SendOp?
  {
    hide Run, L.Normalize, L.FreshTokens, L.CollisionFree, L.Revokes, RegrantsMail, MayReceive, ConsentOps;
    n := MailRespectsConsent(ops, i, d);
    if n < r { OutboxGrows(ops, n + 1, r, d); }
    ReceivableStatus(ops, n, Run(ops, d).campaigns.outbox[i].to, d);
    var p := GrantedSince(ops, r, n, identifier, d);
    j := RegrantStep(ops, r, n, p, identifier, d);
  }

  lemma {:induction false} GrantedSince(ops: seq<Op>, r: nat, n: nat, identifier: string, d: Digests) returns (p: nat)
    requires L.CollisionFree(d.token) && L.FreshTokens(ConsentOps(ops)) && RevokesMail(ops, r, identifier) && r < n <= |ops|
    requires var status := L.StatusAt(L.Run(ConsentOps(ops[..n]), d.token), identifier, Email);
             status.None? || status == Some(Granted)
    ensures L.Regrants(ConsentOps(ops[..n]), |ConsentOps(ops[..r])|, p, identifier, Email, d.token)
  {
    var earlier := ConsentOps(ops[..n]);
    var q := |ConsentOps(ops[..r])|;
    ConsentOpsAt(ops, r, n);
    ConsentOpsAt(ops, r, r + 1);
    ConsentOpsPrefix(ops, n);
    assert ConsentOps(ops)[..|earlier|] == earlier;
    hide ConsentOps, L.Run, L.FreshTokens, L.StatusAt, L.Regrants, L.Normalize, L.Capture, L.CollisionFree;
    assert L.Revokes(earlier, q, identifier, Email);
    hide L.Revokes;
    L.FreshPrefix(ConsentOps(ops), |earlier|);
    L.StaysKnown(earlier, q, identifier, Email, d.token);
    p := L.GrantedAnew(earlier, q, identifier, Email, d.token);
  }

  lemma ReceivableStatus(ops: seq<Op>, n: nat, address: string, d: Digests)
    requires n <= |ops| && MayReceive(Run(ops[..n], d), address)
    ensures var status := L.StatusAt(L.Run(ConsentOps(ops[..n]), d.token), L.Normalize(address), Email);
            status.None? || status == Some(Granted)
  {
    LedgerIsARun(ops[..n], d);
    hide Run, L.Run, L.Normalize, ConsentOps;
    StatusCases(ConsentStatus(Run(ops[..n], d).ledger, address, Email));
  }

  lemma StatusCases(status: Option<Status>)
    ensures status in {None, Some(Granted), Some(Revoked), Some(PendingDoubleOptIn)}
  {
    if status.Some? {
      match status.value
      case Granted =>
      case Revoked =>
      case PendingDoubleOptIn =>
    }
  }

  /** The outbox only grows. */
  lemma {:induction false} OutboxGrows(ops: seq<Op>, a: nat, b: nat, d: Digests)
    requires a <= b <= |ops|
    ensures |Run(ops[..a], d).campaigns.outbox| <= |Run(ops[..b], d).campaigns.outbox|
    decreases b
  {
    hide Run, Next, MayReceive;
    if a < b {
      OutboxGrows(ops, a, b - 1, d);
      RunStep(ops, b - 1, d);
      var w := Run(ops[..b - 1], d);
      if Next(w, ops[b - 1], d).campaigns.outbox != w.campaigns.outbox {
        MailedStep(w, ops[b - 1], d);
      }
    }
  }

  // ---- After a suppression --------------------------------------------------------------------

  ghost predicate Suppressed(w: World, identifier: string) {
    exists e | e in w.suppressions :: Covers(e, identifier, One(Email))
  }

  lemma ReceivableNotSuppressed(w: World, address: string)
    requires MayReceive(w, address)
    ensures !Suppressed(w, L.Normalize(address))
  {
  }

  lemma SuppressedNext(w: World, op: Op, identifier: string, d: Digests)
    requires Suppressed(w, identifier) && !op.UnsuppressOp?
    ensures Suppressed(Next(w, op, d), identifier)
  {
    hide A.Apply, L.Apply, CampaignStep, L.Normalize;
    var e :| e in w.suppressions && Covers(e, identifier, One(Email));
    assert e in Next(w, op, d).suppressions;
  }

  lemma SuppressedAt(w: World, op: Op, d: Digests)
    requires op.SuppressOp? && L.Normalize(op.identifier) != "" && (op.channel == AllChannels || op.channel == One(Email))
    ensures Suppressed(Next(w, op, d), L.Normalize(op.identifier))
  {
    hide A.Apply, L.Apply, CampaignStep, L.Normalize;
    var found := FindEntry(w.suppressions, L.Normalize(op.identifier), op.channel);
    var after := Next(w, op, d).suppressions;
    var e := if found.Some? then w.suppressions[found.value] else after[|after| - 1];
    assert e in after && Covers(e, L.Normalize(op.identifier), One(Email));
  }

  lemma {:induction false} SuppressedAfter(ops: seq<Op>, r: nat, d: Digests)
    requires r < |ops| && ops[r].SuppressOp? && (ops[r].channel == AllChannels || ops[r].channel == One(Email))
    requires L.Normalize(ops[r].identifier) != ""
    ensures Suppressed(Run(ops[..r + 1], d), L.Normalize(ops[r].identifier))
  {
    RunStep(ops, r, d);
    hide Run, Next, Suppressed, L.Normalize;
    SuppressedAt(Run(ops[..r], d), ops[r], d);
  }

  /** Step `j` removes the last entry that suppressed mail to the identifier. */
  ghost predicate Lifts(ops: seq<Op>, j: nat, identifier: string, d: Digests) {
    && j < |ops| && ops[j].UnsuppressOp?
    && Suppressed(Run(ops[..j], d), identifier) && !Suppressed(Run(ops[..j + 1], d), identifier)
  }

  lemma {:induction false} LiftedBetween(ops: seq<Op>, a: nat, b: nat, identifier: string, d: Digests) returns (j: nat)
    requires a <= b <= |ops| && Suppressed(Run(ops[..a], d), identifier) && !Suppressed(Run(ops[..b], d), identifier)
    ensures a <= j < b && Lifts(ops, j, identifier, d)
    decreases b
  {
    hide Run, Next, Suppressed;
    RunStep(ops, b - 1, d);
    if Suppressed(Run(ops[..b - 1], d), identifier) {
      j := b - 1;
      assert ops[..j + 1] == ops[..b];
      if !ops[j].UnsuppressOp? { SuppressedNext(Run(ops[..j], d), ops[j], identifier, d); }
    } else {
      j := LiftedBetween(ops, a, b - 1, identifier, d);
    }
  }

  /** After an address is suppressed for mail or altogether, no mail leaves to it until a removal has lifted the
      suppression: entries covered the identifier before that step, and none does after it. */
  lemma {:induction false} NoMailAfterSuppression(ops: seq<Op>, r: nat, i: nat, d: Digests) returns (j: nat, n: nat)
    requires r < |ops| && ops[r].SuppressOp? && (ops[r].channel == AllChannels || ops[r].channel == One(Email))
    requires L.Normalize(ops[r].identifier) != ""
    requires |Run(ops[..r], d).campaigns.outbox| <= i < |Run(ops, d).campaigns.outbox|
    requires L.Normalize(Run(ops, d).campaigns.outbox[i].to) == L.Normalize(ops[r].identifier)
    ensures r < j < n < |ops| && Lifts(ops, j, L.Normalize(ops[r].identifier), d)
    ensures |Run(ops[..n], d).campaigns.outbox| == i && ops[n].SendOp?
  {
    hide *;
    var identifier := L.Normalize(ops[r].identifier);
    SuppressedAfter(ops, r, d);
    n := MailRespectsConsent(ops, i, d);
    ReceivableNotSuppressed(Run(ops[..n], d), Run(ops, d).campaigns.outbox[i].to);
    if n < r { OutboxGrows(ops, n + 1, r, d); }
    j := LiftedBetween(ops, r + 1, n, identifier, d);
  }
}
