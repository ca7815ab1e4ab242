/** Grant applications: human approval before submission, and the audit log that records it.

  Applications are named by their position in the table. Time is a number.
 */
module GrantApprovals {
  import opened Options

  datatype Auth = Auth(userId: string, crmUserId: Option<string>, januaSub: Option<string>)

  const SERVICE_PREFIX := "service:"

  predicate IsService(auth: Auth) {
    SERVICE_PREFIX <= auth.userId
  }

  function ActorId(auth: Auth): string {
    if auth.crmUserId.GetOr("") != "" then auth.crmUserId.value
    else if auth.januaSub.GetOr("") != "" then auth.januaSub.value
    else auth.userId
  }

  datatype Status = Draft | HitlPending | ApprovedToSubmit | Rejected | Submitted | UnderEvaluation | Awarded

  const STAFF_AWARDABLE := {Submitted, UnderEvaluation, ApprovedToSubmit}

  /** A check that was never made reads as absent. */
  datatype Checks = Checks(rfcActive: Option<bool>, opinion32dPositive: Option<bool>, blacklisted: Option<bool>)

  datatype Application = Application(
    opportunityId: string,
    pipelineId: string,
    stageId: string,
    status: Status,
    hitlApprovedBy: Option<string>,
    hitlApprovedAt: Option<int>,
    hitlNotes: Option<string>,
    awardedAmount: Option<string>,
    complianceChecks: Checks,
    submittedAt: Option<int>)

  datatype Kind = Discovered | ComplianceCheck | HitlRequested | HitlApproved | HitlRejected | MarkedSubmitted | MarkedAwarded

  /** A row of the audit log. `service` is the model's own note of who called. */
  datatype Entry = Entry(applicationId: nat, kind: Kind, actor: string, service: bool)

  datatype Store = Store(applications: seq<Application>, audit: seq<Entry>)

  datatype Op =
    | Create(auth: Auth, opportunityId: string, pipelineId: string, stageId: string)
    | Move(auth: Auth, id: nat, stageId: string)
    | RequestApproval(auth: Auth, id: nat)
    | Approve(id: nat, userId: string, notes: Option<string>, now: int)
    | Reject(id: nat, userId: string, notes: Option<string>)
    | MarkSubmitted(auth: Auth, id: nat, now: int)
    | MarkAwarded(auth: Auth, id: nat, awardedAmount: Option<string>)
    | UpdateChecks(id: nat, checks: Checks)
    | SyncChecks(id: nat, checks: Checks)

  datatype Error =
    | NotFound | NoUserId | NotPending | RfcNotActive | OpinionNotPositive | Blacklisted
    | NotApproved | NotAwardable | ApprovalRequired

  const NO_CHECKS := Checks(None, None, None)
  const EMPTY_STORE := Store([], [])

  function NewApplication(opportunityId: string, pipelineId: string, stageId: string): Application {
    Application(opportunityId, pipelineId, stageId, Draft, None, None, None, None, NO_CHECKS, None)
  }

  predicate Has(s: Store, id: nat) {
    id < |s.applications|
  }

  function Refusal(s: Store, op: Op): Option<Error> {
    match op
    case Create(_, _, _, _) => None
    case Approve(id, userId, _, _) =>
      if userId == "" then Some(NoUserId)
      else if !Has(s, id) then Some(NotFound)
      else ApprovalRefusal(s.applications[id])
    case MarkSubmitted(_, id, _) =>
      if !Has(s, id) then Some(NotFound)
      else if s.applications[id].status != ApprovedToSubmit then Some(NotApproved)
      else None
    case MarkAwarded(auth, id, _) =>
      if !Has(s, id) then Some(NotFound)
      else if IsService(auth) then None
      else if s.applications[id].status !in STAFF_AWARDABLE then Some(NotAwardable)
      else if s.applications[id].hitlApprovedBy.GetOr("") == "" then Some(ApprovalRequired)
      else None
    case Move(_, id, _) => if Has(s, id) then None else Some(NotFound)
    case RequestApproval(_, id) => if Has(s, id) then None else Some(NotFound)
    case Reject(id, _, _) => if Has(s, id) then None else Some(NotFound)
    case UpdateChecks(id, _) => if Has(s, id) then None else Some(NotFound)
    case SyncChecks(id, _) => if Has(s, id) then None else Some(NotFound)
  }

  function ApprovalRefusal(app: Application): Option<Error> {
    if app.status != HitlPending then Some(NotPending)
    else if app.complianceChecks.rfcActive != Some(true) then Some(RfcNotActive)
    else if app.complianceChecks.opinion32dPositive != Some(true) then Some(OpinionNotPositive)
    else if app.complianceChecks.blacklisted == Some(true) then Some(Blacklisted)
    else None
  }

  /** The row after an operation that is carried out. */
  function Changed(app: Application, op: Op): Application {
    match op
    case Create(_, _, _, _) => app
    case Move(_, _, stageId) => app.(stageId := stageId)
    case RequestApproval(_, _) => app.(status := HitlPending)
    case Approve(_, userId, notes, now) =>
      app.(status := ApprovedToSubmit, hitlApprovedBy := Some(userId), hitlApprovedAt := Some(now), hitlNotes := notes)
    case Reject(_, _, notes) => app.(status := Rejected, hitlNotes := notes)
    case MarkSubmitted(_, _, now) => app.(status := Submitted, submittedAt := Some(now))
    case MarkAwarded(_, _, amount) =>
      app.(status := Awarded, awardedAmount := if amount.Some? then amount else app.awardedAmount)
    case UpdateChecks(_, checks) => app.(complianceChecks := checks)
    case SyncChecks(_, checks) => app.(complianceChecks := checks)
  }

  /** The audit rows of an operation on application `id`; the worker's sync writes none. */
  function Recorded(id: nat, op: Op): seq<Entry> {
    match op
    case Create(auth, _, _, _) => [Entry(id, Discovered, ActorId(auth), IsService(auth))]
    case Move(auth, _, _) => [Entry(id, Discovered, ActorId(auth), IsService(auth))]
    case RequestApproval(auth, _) => [Entry(id, HitlRequested, ActorId(auth), IsService(auth))]
    case Approve(_, userId, _, _) => [Entry(id, HitlApproved, userId, false)]
    case Reject(_, userId, _) => [Entry(id, HitlRejected, userId, false)]
    case MarkSubmitted(auth, _, _) => [Entry(id, MarkedSubmitted, ActorId(auth), IsService(auth))]
    case MarkAwarded(auth, _, _) => [Entry(id, MarkedAwarded, ActorId(auth), IsService(auth))]
    case UpdateChecks(_, _) => [Entry(id, ComplianceCheck, "system", false)]
    case SyncChecks(_, _) => []
  }

  function Next(s: Store, op: Op): Store {
    if Refusal(s, op).Some? then s
    else if op.Create? then
      Store(s.applications + [NewApplication(op.opportunityId, op.pipelineId, op.stageId)],
            s.audit + Recorded(|s.applications|, op))
    else
      Store(s.applications[op.id := Changed(s.applications[op.id], op)], s.audit + Recorded(op.id, op))
  }

  function Run(s: Store, ops: seq<Op>): Store
    decreases |ops|
  {
    if ops == [] then s else Run(Next(s, ops[0]), ops[1..])
  }

  // ---- What is accepted, and what it changes ---------------------------------------------------

  /** Reading, moving, asking, rejecting and checking need the application alone; the other steps are guarded. */
  lemma AcceptedExactly(s: Store, op: Op)
    ensures Refusal(s, op).None? <==>
            match op
            case Create(_, _, _, _) => true
            case Approve(id, userId, _, _) =>
              && userId != "" && id < |s.applications| && s.applications[id].status == HitlPending
              && s.applications[id].complianceChecks.rfcActive == Some(true)
              && s.applications[id].complianceChecks.opinion32dPositive == Some(true)
              && s.applications[id].complianceChecks.blacklisted != Some(true)
            case MarkSubmitted(_, id, _) => id < |s.applications| && s.applications[id].status == ApprovedToSubmit
            case MarkAwarded(auth, id, _) =>
              && id < |s.applications|
              && (|| "service:" <= auth.userId
                  || (s.applications[id].status in {Submitted, UnderEvaluation, ApprovedToSubmit}
                      && s.applications[id].hitlApprovedBy.Some? && s.applications[id].hitlApprovedBy.value != ""))
            case Move(_, id, _) => id < |s.applications|
            case RequestApproval(_, id) => id < |s.applications|
            case Reject(id, _, _) => id < |s.applications|
            case UpdateChecks(id, _) => id < |s.applications|
            case SyncChecks(id, _) => id < |s.applications|
  {
  }

  /** Each field of the row is what the last step meant for it wrote; a step leaves all others alone. */
  ghost predicate Wrote(before: Application, after: Application, op: Op) {
    && after.opportunityId == before.opportunityId && after.pipelineId == before.pipelineId
    && after.stageId == (if op.Move? then op.stageId else before.stageId)
    && after.hitlApprovedBy == (if op.Approve? then Some(op.userId) else before.hitlApprovedBy)
    && after.hitlApprovedAt == (if op.Approve? then Some(op.now) else before.hitlApprovedAt)
    && after.hitlNotes == (if op.Approve? || op.Reject? then op.notes else before.hitlNotes)
    && after.awardedAmount == (if op.MarkAwarded? && op.awardedAmount.Some? then op.awardedAmount else before.awardedAmount)
    && after.complianceChecks == (if op.UpdateChecks? || op.SyncChecks? then op.checks else before.complianceChecks)
    && after.submittedAt == (if op.MarkSubmitted? then Some(op.now) else before.submittedAt)
    && (op.Move? || op.UpdateChecks? || op.SyncChecks? ==> after.status == before.status)
  }

  /** Who a step is put down to: the CRM user, else the identity provider's, else the caller as given. */
  predicate SignedBy(auth: Auth, actor: string) {
    if auth.crmUserId.Some? && auth.crmUserId.value != "" then Some(actor) == auth.crmUserId
    else if auth.januaSub.Some? && auth.januaSub.value != "" then Some(actor) == auth.januaSub
    else actor == auth.userId
  }

  /** An accepted step writes its row and one line of the log, which the worker's sync alone does without. */
  lemma {:induction false} StepExactly(s: Store, op: Op)
    requires Refusal(s, op).None? && !op.Create?
    ensures op.id < |s.applications| == |Next(s, op).applications|
    ensures var t := Next(s, op);
            && (forall i | 0 <= i < |s.applications| && i != op.id :: t.applications[i] == s.applications[i])
            && Wrote(s.applications[op.id], t.applications[op.id], op)
            && if op.SyncChecks? then t.audit == s.audit
               else
                 && |t.audit| == |s.audit| + 1 && t.audit[..|s.audit|] == s.audit
                 && var entry := t.audit[|s.audit|];
                    && entry.applicationId == op.id
                    && (op.Approve? || op.Reject? ==> entry.actor == op.userId)
                    && (op.UpdateChecks? ==> entry.actor == "system")
                    && (op.Move? || op.RequestApproval? || op.MarkSubmitted? || op.MarkAwarded? ==>
                          SignedBy(op.auth, entry.actor) && (entry.service <==> "service:" <= op.auth.userId))
  {
    hide ActorId, SignedBy;
    if op.Move? || op.RequestApproval? || op.MarkSubmitted? || op.MarkAwarded? { ActorSigns(op.auth); }
  }

  lemma ActorSigns(auth: Auth)
    ensures SignedBy(auth, ActorId(auth))
  {
  }

  /** A new application is a draft without approval, checks or dates. */
  lemma CreatedExactly(s: Store, op: Op)
    requires op.Create?
    ensures var t := Next(s, op);
            && |t.applications| == |s.applications| + 1 && t.applications[..|s.applications|] == s.applications
            && var app := t.applications[|s.applications|];
               && app.opportunityId == op.opportunityId && app.pipelineId == op.pipelineId && app.stageId == op.stageId
               && app.status == Draft && app.hitlApprovedBy == None && app.hitlApprovedAt == None && app.hitlNotes == None
               && app.awardedAmount == None && app.submittedAt == None && app.complianceChecks == Checks(None, None, None)
  {
  }

  // ---- What the log says -------------------------------------------------------------

  /** The log's rows about one application. */
  function Trail(log: seq<Entry>, id: nat): seq<Entry> {
    if log == [] then []
    else
      var last := log[|log| - 1];
      Trail(log[..|log| - 1], id) + (if last.applicationId == id then [last] else [])
  }

  predicate Moves(kind: Kind) {
    kind != Discovered && kind != ComplianceCheck
  }

  function StatusAfter(status: Status, kind: Kind): Status {
    match kind
    case Discovered => status
    case ComplianceCheck => status
    case HitlRequested => HitlPending
    case HitlApproved => ApprovedToSubmit
    case HitlRejected => Rejected
    case MarkedSubmitted => Submitted
    case MarkedAwarded => Awarded
  }

  /** The status the rows add up to. */
  function Folded(trail: seq<Entry>): Status {
    if trail == [] then Draft
    else StatusAfter(Folded(trail[..|trail| - 1]), trail[|trail| - 1].kind)
  }

  /** Who approved last. */
  function LastApprover(trail: seq<Entry>): Option<string> {
    if trail == [] then None
    else if trail[|trail| - 1].kind == HitlApproved then Some(trail[|trail| - 1].actor)
    else LastApprover(trail[..|trail| - 1])
  }

  /** A row that may follow rows adding up to `status`. */
  predicate MayFollow(status: Status, entry: Entry) {
    match entry.kind
    case HitlApproved => status == HitlPending && entry.actor != ""
    case MarkedSubmitted => status == ApprovedToSubmit
    case MarkedAwarded => entry.service || status == ApprovedToSubmit || status == Submitted
    case _ => true
  }

  predicate Legal(trail: seq<Entry>) {
    trail == [] || (MayFollow(Folded(trail[..|trail| - 1]), trail[|trail| - 1]) && Legal(trail[..|trail| - 1]))
  }

  ghost predicate Agrees(app: Application, trail: seq<Entry>) {
    app.status == Folded(trail) && app.hitlApprovedBy == LastApprover(trail) && Legal(trail)
  }

  ghost predicate Sound(s: Store) {
    && (forall id: nat | id < |s.applications| :: Agrees(s.applications[id], Trail(s.audit, id)))
    && (forall k: nat | k < |s.audit| :: s.audit[k].applicationId < |s.applications|)
  }

  lemma {:induction false} TrailSnoc(log: seq<Entry>, entry: Entry, id: nat)
    ensures Trail(log + [entry], id) == if entry.applicationId == id then Trail(log, id) + [entry] else Trail(log, id)
  {
    assert (log + [entry])[..|log|] == log;
  }

  lemma {:induction false} NoTrail(log: seq<Entry>, id: nat)
    requires forall k: nat | k < |log| :: log[k].applicationId != id
    ensures Trail(log, id) == []
    decreases |log|
  {
    if log != [] { NoTrail(log[..|log| - 1], id); }
  }

  lemma FoldSnoc(trail: seq<Entry>, entry: Entry)
    ensures Folded(trail + [entry]) == StatusAfter(Folded(trail), entry.kind)
    ensures LastApprover(trail + [entry]) == if entry.kind == HitlApproved then Some(entry.actor) else LastApprover(trail)
    ensures Legal(trail + [entry]) <==> MayFollow(Folded(trail), entry) && Legal(trail)
  {
    assert (trail + [entry])[..|trail|] == trail;
  }

  /** An accepted operation moves its row as its audit row says. */
  lemma {:induction false} ChangeAgrees(app: Application, trail: seq<Entry>, s: Store, op: Op)
    requires !op.Create? && Has(s, op.id) && s.applications[op.id] == app && Refusal(s, op).None?
    requires Agrees(app, trail)
    ensures Agrees(Changed(app, op), trail + Recorded(op.id, op))
  {
    hide Folded, LastApprover, Legal;
    UnderEvaluationUnreachable(trail);
    if op.SyncChecks? {
      assert trail + [] == trail;
    } else {
      FoldSnoc(trail, Recorded(op.id, op)[0]);
    }
  }

  lemma {:induction false} UnderEvaluationUnreachable(trail: seq<Entry>)
    ensures Folded(trail) != UnderEvaluation
    decreases |trail|
  {
    if trail != [] { UnderEvaluationUnreachable(trail[..|trail| - 1]); }
  }

  lemma NextSound(s: Store, op: Op)
    requires Sound(s)
    ensures Sound(Next(s, op))
  {
    var t := Next(s, op);
    if Refusal(s, op).None? {
      forall id: nat | id < |t.applications| ensures Agrees(t.applications[id], Trail(t.audit, id)) {
        RowAgrees(s, op, id);
      }
    }
  }

  lemma CreatedAgrees(op: Op, id: nat)
    requires op.Create?
    ensures Agrees(NewApplication(op.opportunityId, op.pipelineId, op.stageId), [] + Recorded(id, op))
  {
    FoldSnoc([], Recorded(id, op)[0]);
  }

  lemma RowAgrees(s: Store, op: Op, id: nat)
    requires Sound(s) && Refusal(s, op).None? && id < |Next(s, op).applications|
    ensures Agrees(Next(s, op).applications[id], Trail(Next(s, op).audit, id))
  {
    var t := Next(s, op);
    var target := if op.Create? then |s.applications| else op.id;
    hide Folded, LastApprover, Legal, Trail, Changed;
    if op.SyncChecks? {
      assert t.audit == s.audit && Trail(s.audit, id) + [] == Trail(s.audit, id);
    } else {
      TrailSnoc(s.audit, Recorded(target, op)[0], id);
      assert t.audit == s.audit + [Recorded(target, op)[0]];
    }
    if id == target {
      if op.Create? {
        NoTrail(s.audit, id);
        CreatedAgrees(op, target);
      } else {
        ChangeAgrees(s.applications[id], Trail(s.audit, id), s, op);
      }
    }
  }

  lemma {:induction false} RunSoundFrom(s: Store, ops: seq<Op>)
    requires Sound(s)
    ensures Sound(Run(s, ops))
    decreases |ops|
  {
    if ops != [] {
      NextSound(s, ops[0]);
      RunSoundFrom(Next(s, ops[0]), ops[1..]);
    }
  }

  // ---- Over every run ------------------------------------------------------------------

  /** The row refines the log, whatever was called in whatever order. */
  lemma RowIsTheFold(ops: seq<Op>, id: nat)
    requires id < |Run(EMPTY_STORE, ops).applications|
    ensures var s := Run(EMPTY_STORE, ops); var app := s.applications[id]; var trail := Trail(s.audit, id);
            && app.status == Folded(trail) && app.hitlApprovedBy == LastApprover(trail)
            && (app.status == ApprovedToSubmit || app.status == Submitted ==> app.hitlApprovedBy.Some? && app.hitlApprovedBy.value != "")
  {
    RunSoundFrom(EMPTY_STORE, ops);
    ApproverRecorded(Trail(Run(EMPTY_STORE, ops).audit, id));
  }

  lemma {:induction false} ApproverRecorded(trail: seq<Entry>)
    requires Legal(trail)
    ensures LastApprover(trail).Some? ==> LastApprover(trail).value != ""
    ensures Folded(trail) == ApprovedToSubmit || Folded(trail) == Submitted ==> LastApprover(trail).Some?
    decreases |trail|
  {
    if trail != [] { ApproverRecorded(trail[..|trail| - 1]); }
  }

  /** Row `j` is the last to move the status before row `k`. */
  ghost predicate LastMove(trail: seq<Entry>, j: nat, k: nat) {
    && j < k <= |trail| && Moves(trail[j].kind)
    && forall i | j < i < k :: !Moves(trail[i].kind)
  }

  /** The row before `k` that made the status what it is there. */
  lemma {:induction false} LastMoveExists(trail: seq<Entry>, k: nat) returns (j: nat)
    requires k <= |trail| && Folded(trail[..k]) != Draft
    ensures LastMove(trail, j, k) && StatusAfter(Draft, trail[j].kind) == Folded(trail[..k])
    decreases k
  {
    assert trail[..k][..k - 1] == trail[..k - 1];
    if Moves(trail[k - 1].kind) {
      j := k - 1;
    } else {
      j := LastMoveExists(trail, k - 1);
    }
  }

  lemma {:induction false} LegalAt(trail: seq<Entry>, k: nat)
    requires Legal(trail) && k < |trail|
    ensures MayFollow(Folded(trail[..k]), trail[k])
    decreases |trail|
  {
    var front := trail[..|trail| - 1];
    if k < |trail| - 1 {
      LegalAt(front, k);
      assert front[..k] == trail[..k];
    }
  }

  /** Every submission has its own approval, and the approval its own request: nothing moved the status between. */
  lemma SubmissionChain(ops: seq<Op>, id: nat, k: nat)
    requires id < |Run(EMPTY_STORE, ops).applications|
    requires k < |Trail(Run(EMPTY_STORE, ops).audit, id)| && Trail(Run(EMPTY_STORE, ops).audit, id)[k].kind == MarkedSubmitted
    ensures var trail := Trail(Run(EMPTY_STORE, ops).audit, id);
            exists i: nat, j: nat | LastMove(trail, i, j) && LastMove(trail, j, k) ::
              trail[i].kind == HitlRequested && trail[j].kind == HitlApproved && trail[j].actor != ""
  {
    RunSoundFrom(EMPTY_STORE, ops);
    var trail := Trail(Run(EMPTY_STORE, ops).audit, id);
    hide Trail, Run, Folded;
    LegalAt(trail, k);
    var j := LastMoveExists(trail, k);
    LegalAt(trail, j);
    var i := LastMoveExists(trail, j);
    assert LastMove(trail, i, j) && LastMove(trail, j, k);
  }

  /** An award by staff follows an approval or a submission; any other comes from a service. */
  lemma AwardChain(ops: seq<Op>, id: nat, k: nat)
    requires id < |Run(EMPTY_STORE, ops).applications|
    requires k < |Trail(Run(EMPTY_STORE, ops).audit, id)| && Trail(Run(EMPTY_STORE, ops).audit, id)[k].kind == MarkedAwarded
    ensures var trail := Trail(Run(EMPTY_STORE, ops).audit, id);
            || trail[k].service
            || exists j: nat | LastMove(trail, j, k) :: trail[j].kind == HitlApproved || trail[j].kind == MarkedSubmitted
  {
    RunSoundFrom(EMPTY_STORE, ops);
    var trail := Trail(Run(EMPTY_STORE, ops).audit, id);
    hide Trail, Run, Folded;
    LegalAt(trail, k);
    if !trail[k].service {
      var j := LastMoveExists(trail, k);
      assert LastMove(trail, j, k);
    }
  }

  // ---- Compliance at submission ------------------------------------------------------------

  predicate Compliant(checks: Checks) {
    checks.rfcActive == Some(true) && checks.opinion32dPositive == Some(true) && checks.blacklisted != Some(true)
  }

  predicate WritesChecks(op: Op) {
    op.UpdateChecks? || op.SyncChecks?
  }

  /** The checks last written to the row since it was last approved, in a run from the empty store. */
  function SinceApproval(ops: seq<Op>, id: nat): Option<Checks> {
    if ops == [] then None
    else
      var (earlier, op) := (ops[..|ops| - 1], ops[|ops| - 1]);
      if op.Create? || op.id != id || Refusal(Run(EMPTY_STORE, earlier), op).Some? then SinceApproval(earlier, id)
      else if op.Approve? then None
      else if WritesChecks(op) then Some(op.checks)
      else SinceApproval(earlier, id)
  }

  lemma {:induction false} RunSnoc(s: Store, ops: seq<Op>, op: Op)
    ensures Run(s, ops + [op]) == Next(Run(s, ops), op)
    decreases |ops|
  {
    hide Next;
    if ops == [] {
      assert (ops + [op])[1..] == [];
    } else {
      RunSnoc(Next(s, ops[0]), ops[1..], op);
      assert (ops + [op])[1..] == ops[1..] + [op];
    }
  }

  /** An approved row's checks are those written since, or the compliant ones it was approved with. */
  ghost predicate ChecksExplained(app: Application, since: Option<Checks>) {
    app.hitlApprovedBy.Some? ==>
      if since.Some? then app.complianceChecks == since.value else Compliant(app.complianceChecks)
  }

  lemma {:induction false} ChecksSinceApproval(ops: seq<Op>, id: nat)
    requires id < |Run(EMPTY_STORE, ops).applications|
    ensures ChecksExplained(Run(EMPTY_STORE, ops).applications[id], SinceApproval(ops, id))
    decreases |ops|
  {
    var (earlier, op) := (ops[..|ops| - 1], ops[|ops| - 1]);
    assert ops == earlier + [op];
    RunSnoc(EMPTY_STORE, earlier, op);
    var s := Run(EMPTY_STORE, earlier);
    hide Run;
    if id < |s.applications| {
      ChecksSinceApproval(earlier, id);
    }
  }

  /** A submission that is accepted meets the compliance checks exactly when none were written since the approval,
      or the last ones written were compliant. */
  lemma {:induction false} SubmissionCompliantExactly(ops: seq<Op>, id: nat, auth: Auth, now: int)
    requires Refusal(Run(EMPTY_STORE, ops), MarkSubmitted(auth, id, now)).None?
    ensures var after := Run(EMPTY_STORE, ops + [MarkSubmitted(auth, id, now)]);
            && id < |after.applications| && after.applications[id].status == Submitted
            && (Compliant(after.applications[id].complianceChecks) <==>
                  SinceApproval(ops, id).None? || Compliant(SinceApproval(ops, id).value))
  {
    RunSnoc(EMPTY_STORE, ops, MarkSubmitted(auth, id, now));
    RowIsTheFold(ops, id);
    ChecksSinceApproval(ops, id);
    hide Run, SinceApproval, Trail, Folded, LastApprover;
  }

  /** An approval is only ever given on compliant checks. */
  lemma ApprovalsAreCompliant(s: Store, id: nat, userId: string, notes: Option<string>, now: int)
    ensures Refusal(s, Approve(id, userId, notes, now)).None? <==>
              userId != "" && Has(s, id) && s.applications[id].status == HitlPending
              && Compliant(s.applications[id].complianceChecks)
  {
  }

  const GOOD := Checks(Some(true), Some(true), Some(false))
  const BAD := Checks(Some(false), Some(false), Some(true))

  function ApprovedThenBlacklisted(auth: Auth, userId: string): seq<Op> {
    [Create(auth, "o", "p", "s")] + [UpdateChecks(0, GOOD)] + [RequestApproval(auth, 0)]
    + [Approve(0, userId, None, 0)] + [SyncChecks(0, BAD)]
  }

  lemma ApprovedStore(auth: Auth, userId: string)
    requires userId != ""
    ensures var checked := Next(Next(EMPTY_STORE, Create(auth, "o", "p", "s")), UpdateChecks(0, GOOD));
            var approved := Next(Next(checked, RequestApproval(auth, 0)), Approve(0, userId, None, 0));
            |approved.applications| == 1 && approved.applications[0].status == ApprovedToSubmit
  {
    var a := NewApplication("o", "p", "s");
    var s0 := Next(EMPTY_STORE, Create(auth, "o", "p", "s"));
    var s1 := Next(s0, UpdateChecks(0, GOOD));
    var s2 := Next(s1, RequestApproval(auth, 0));
    assert s0.applications == [a];
    assert s1.applications == [a.(complianceChecks := GOOD)];
    assert s2.applications == [a.(complianceChecks := GOOD, status := HitlPending)];
  }

  lemma BlacklistedSubmits(s: Store, auth: Auth, now: int)
    requires |s.applications| == 1 && s.applications[0].status == ApprovedToSubmit
    ensures var after := Next(Next(s, SyncChecks(0, BAD)), MarkSubmitted(auth, 0, now));
            && |after.applications| == 1 && after.applications[0].status == Submitted
            && after.applications[0].complianceChecks == BAD
  {
  }

  /** Compliance is looked at when approving and not again: created, checked, approved, then blacklisted, an
      application is still submitted. */
  lemma {:induction false} SubmittedThoughBlacklisted(auth: Auth, userId: string, now: int)
    requires userId != ""
    ensures var after := Run(EMPTY_STORE, ApprovedThenBlacklisted(auth, userId) + [MarkSubmitted(auth, 0, now)]);
            && |after.applications| == 1 && after.applications[0].status == Submitted
            && after.applications[0].complianceChecks == BAD
  {
    var o0 := [Create(auth, "o", "p", "s")];
    var o1 := o0 + [UpdateChecks(0, GOOD)];
    var o2 := o1 + [RequestApproval(auth, 0)];
    var o3 := o2 + [Approve(0, userId, None, 0)];
    assert [] + o0 == o0;
    assert Run(EMPTY_STORE, []) == EMPTY_STORE;
    hide Run, Next;
    RunSnoc(EMPTY_STORE, [], Create(auth, "o", "p", "s"));
    RunSnoc(EMPTY_STORE, o0, UpdateChecks(0, GOOD));
    RunSnoc(EMPTY_STORE, o1, RequestApproval(auth, 0));
    RunSnoc(EMPTY_STORE, o2, Approve(0, userId, None, 0));
    RunSnoc(EMPTY_STORE, o3, SyncChecks(0, BAD));
    RunSnoc(EMPTY_STORE, ApprovedThenBlacklisted(auth, userId), MarkSubmitted(auth, 0, now));
    ApprovedStore(auth, userId);
    BlacklistedSubmits(Run(EMPTY_STORE, o3), auth, now);
  }

  // ---- The service -----------------------------------------------------------------------

  class Service {
    var applications: seq<Application>
    var audit: seq<Entry>

    ghost function Contents(): Store
      reads this
    {
      Store(applications, audit)
    }

    constructor ()
      ensures Contents() == EMPTY_STORE
    {
      applications, audit := [], [];
    }

    method CreateApplication(auth: Auth, opportunityId: string, pipelineId: string, stageId: string) returns (id: nat)
      modifies this
      ensures Contents() == Next(old(Contents()), Create(auth, opportunityId, pipelineId, stageId))
      ensures id == old(|applications|) && |applications| == id + 1
    {
      id := |applications|;
      applications := applications + [NewApplication(opportunityId, pipelineId, stageId)];
      RecordAudit(id, Discovered, ActorId(auth), IsService(auth));
    }

    method RecordAudit(id: nat, kind: Kind, actor: string, service: bool)
      modifies this`audit
      ensures audit == old(audit) + [Entry(id, kind, actor, service)]
    {
      audit := audit + [Entry(id, kind, actor, service)];
    }

    method MoveToStage(auth: Auth, id: nat, stageId: string) returns (error: Option<Error>)
      modifies this
      ensures error == Refusal(old(Contents()), Move(auth, id, stageId))
      ensures Contents() == Next(old(Contents()), Move(auth, id, stageId))
    {
      if id >= |applications| { return Some(NotFound); }
      applications := applications[id := applications[id].(stageId := stageId)];
      RecordAudit(id, Discovered, ActorId(auth), IsService(auth));
      error := None;
    }

    method RequestHitlApproval(auth: Auth, id: nat) returns (error: Option<Error>)
      modifies this
      ensures error == Refusal(old(Contents()), RequestApproval(auth, id))
      ensures Contents() == Next(old(Contents()), RequestApproval(auth, id))
    {
      if id >= |applications| { return Some(NotFound); }
      applications := applications[id := applications[id].(status := HitlPending)];
      RecordAudit(id, HitlRequested, ActorId(auth), IsService(auth));
      error := None;
    }

    method ApproveForSubmission(id: nat, userId: string, notes: Option<string>, now: int) returns (error: Option<Error>)
      modifies this
      ensures error == Refusal(old(Contents()), Approve(id, userId, notes, now))
      ensures Contents() == Next(old(Contents()), Approve(id, userId, notes, now))
    {
      if userId == "" { return Some(NoUserId); }
      if id >= |applications| { return Some(NotFound); }
      var current := applications[id];
      var checks := current.complianceChecks;
      if current.status != HitlPending { return Some(NotPending); }
      if !checks.rfcActive.GetOr(false) { return Some(RfcNotActive); }
      if !checks.opinion32dPositive.GetOr(false) { return Some(OpinionNotPositive); }
      if checks.blacklisted.GetOr(false) { return Some(Blacklisted); }
      applications := applications[id := current.(
        status := ApprovedToSubmit, hitlApprovedBy := Some(userId), hitlApprovedAt := Some(now), hitlNotes := notes)];
      RecordAudit(id, HitlApproved, userId, false);
      error := None;
    }

    method RejectSubmission(id: nat, userId: string, notes: Option<string>) returns (error: Option<Error>)
      modifies this
      ensures error == Refusal(old(Contents()), Reject(id, userId, notes))
      ensures Contents() == Next(old(Contents()), Reject(id, userId, notes))
    {
      if id >= |applications| { return Some(NotFound); }
      applications := applications[id := applications[id].(status := Rejected, hitlNotes := notes)];
      RecordAudit(id, HitlRejected, userId, false);
      error := None;
    }

    method Submit(auth: Auth, id: nat, now: int) returns (error: Option<Error>)
      modifies this
      ensures error == Refusal(old(Contents()), MarkSubmitted(auth, id, now))
      ensures Contents() == Next(old(Contents()), MarkSubmitted(auth, id, now))
    {
      if id >= |applications| { return Some(NotFound); }
      if applications[id].status != ApprovedToSubmit { return Some(NotApproved); }
      applications := applications[id := applications[id].(status := Submitted, submittedAt := Some(now))];
      RecordAudit(id, MarkedSubmitted, ActorId(auth), IsService(auth));
      error := None;
    }

    method Award(auth: Auth, id: nat, awardedAmount: Option<string>) returns (error: Option<Error>)
      modifies this
      ensures error == Refusal(old(Contents()), MarkAwarded(auth, id, awardedAmount))
      ensures Contents() == Next(old(Contents()), MarkAwarded(auth, id, awardedAmount))
    {
      if id >= |applications| { return Some(NotFound); }
      var current := applications[id];
      if !IsService(auth) {
        if current.status !in STAFF_AWARDABLE { return Some(NotAwardable); }
        if current.hitlApprovedBy.GetOr("") == "" { return Some(ApprovalRequired); }
      }
      var updated := current.(status := Awarded);
      if awardedAmount.Some? {
        updated := updated.(awardedAmount := awardedAmount);
      }
      applications := applications[id := updated];
      RecordAudit(id, MarkedAwarded, ActorId(auth), IsService(auth));
      error := None;
    }

    method UpdateComplianceChecks(id: nat, checks: Checks) returns (error: Option<Error>)
      modifies this
      ensures error == Refusal(old(Contents()), UpdateChecks(id, checks))
      ensures Contents() == Next(old(Contents()), UpdateChecks(id, checks))
    {
      if id >= |applications| { return Some(NotFound); }
      applications := applications[id := applications[id].(complianceChecks := checks)];
      RecordAudit(id, ComplianceCheck, "system", false);
      error := None;
    }
  }
}
