/** Consent records with double opt-in, and the audit log they are kept with.

  Rows and audit entries are identified by their position: neither table ever
  loses a row. Time is in milliseconds.
 */
module ConsentLedger {
  import opened Options
  import opened ConsentStates
  import opened Trimming

  // ---- Identifiers -----------------------------------------------------------------

  function LowerChar(c: char): char {
    if 'A' <= c <= 'Z' then (c as int + 32) as char else c
  }

  function Lower(s: string): string {
    seq(|s|, i requires 0 <= i < |s| => LowerChar(s[i]))
  }

  function Normalize(s: string): string {
    Lower(Trim(s, BlankChar))
  }

  // ---- Tables ----------------------------------------------------------------------

  type Token = nat
  type Hash = nat

  datatype ConsentRecord = ConsentRecord(
    identifier: string,
    channel: Channel,
    status: Status,
    source: string,
    evidence: Option<string>,
    contactId: Option<string>,
    tokenHash: Option<Hash>,
    tokenExpiresAt: Option<nat>,
    grantedAt: Option<nat>,
    revokedAt: Option<nat>)

  datatype AuditEntry = AuditEntry(
    recordId: nat,
    action: Action,
    previous: Option<Status>,
    status: Status,
    source: string,
    evidence: Option<string>,
    at: nat)

  datatype Ledger = Ledger(records: seq<ConsentRecord>, audit: seq<AuditEntry>)

  datatype CaptureInput = CaptureInput(
    identifier: string,
    channel: Channel,
    action: Action,
    source: string,
    evidence: Option<string>,
    contactId: Option<string>)

  datatype Error =
    | IdentifierRequired
    | SourceRequired
    | InvalidTransition
    | UnknownToken
    | NoLongerPending
    | TokenExpired

  /** Seven days. */
  const TOKEN_TTL: nat := 604800000

  /** The row of an identifier and channel, if there is one. */
  function FindRecord(records: seq<ConsentRecord>, identifier: string, channel: Channel): (r: Option<nat>)
    ensures r.Some? ==> r.value < |records| && records[r.value].identifier == identifier && records[r.value].channel == channel
    ensures r.None? ==> forall i | 0 <= i < |records| :: records[i].identifier != identifier || records[i].channel != channel
  {
    if records == [] then None
    else
      var n := |records| - 1;
      if records[n].identifier == identifier && records[n].channel == channel then Some(n)
      else FindRecord(records[..n], identifier, channel)
  }

  function FindToken(records: seq<ConsentRecord>, hash: Hash): (r: Option<nat>)
    ensures r.Some? ==> r.value < |records| && records[r.value].tokenHash == Some(hash)
    ensures r.None? ==> forall i | 0 <= i < |records| :: records[i].tokenHash != Some(hash)
  {
    if records == [] then None
    else
      var n := |records| - 1;
      if records[n].tokenHash == Some(hash) then Some(n) else FindToken(records[..n], hash)
  }

  function StatusOf(l: Ledger, row: Option<nat>): Option<Status>
    requires row.Some? ==> row.value < |l.records|
  {
    if row.Some? then Some(l.records[row.value].status) else None
  }

  function GrantedAtOf(l: Ledger, row: Option<nat>): Option<nat>
    requires row.Some? ==> row.value < |l.records|
  {
    if row.Some? then l.records[row.value].grantedAt else None
  }

  function GrantedAtAfter(newStatus: Status, current: Option<Status>, grantedAt: Option<nat>, now: nat): Option<nat> {
    if newStatus != Granted then grantedAt
    else if current == Some(Granted) then Some(grantedAt.GetOr(now))
    else Some(now)
  }

  /** The row a capture writes. */
  function CapturedRecord(l: Ledger, row: Option<nat>, identifier: string, input: CaptureInput, newStatus: Status,
                          contactByEmail: Option<string>, now: nat, tokenHash: Hash): ConsentRecord
    requires row.Some? ==> row.value < |l.records|
  {
    ConsentRecord(
      identifier, input.channel, newStatus, input.source, input.evidence,
      if input.contactId.Some? then input.contactId
      else if row.Some? && l.records[row.value].contactId.Some? then l.records[row.value].contactId
      else if input.channel == Email then contactByEmail
      else None,
      if input.action == RequestDoubleOptIn then Some(tokenHash) else None,
      if input.action == RequestDoubleOptIn then Some(now + TOKEN_TTL) else None,
      GrantedAtAfter(newStatus, StatusOf(l, row), GrantedAtOf(l, row), now),
      if newStatus == Revoked then Some(now) else None)
  }

  /** The new ledger and the row written. */
  function Capture(l: Ledger, input: CaptureInput, contactByEmail: Option<string>, now: nat, token: Token,
                   hash: Token -> Hash): Result<(Ledger, nat), Error>
  {
    var identifier := Normalize(input.identifier);
    if identifier == "" then Err(IdentifierRequired)
    else if input.source == "" then Err(SourceRequired)
    else
      var row := FindRecord(l.records, identifier, input.channel);
      var current := StatusOf(l, row);
      match Next(current, input.action)
      case None => Err(InvalidTransition)
      case Some(newStatus) =>
        var written := CapturedRecord(l, row, identifier, input, newStatus, contactByEmail, now, hash(token));
        var id := if row.Some? then row.value else |l.records|;
        var entry := AuditEntry(id, input.action, current, newStatus, input.source, input.evidence, now);
        Ok((Ledger(if row.Some? then l.records[row.value := written] else l.records + [written], l.audit + [entry]), id))
  }

  const CONFIRM_EVIDENCE := "Double opt-in link confirmed"

  /** The new ledger, the row confirmed, and whether it already was. */
  function Confirm(l: Ledger, token: Token, now: nat, hash: Token -> Hash): Result<(Ledger, nat, bool), Error> {
    match FindToken(l.records, hash(token))
    case None => Err(UnknownToken)
    case Some(id) =>
      var record := l.records[id];
      if record.status == Granted then Ok((l, id, true))
      else if record.status != PendingDoubleOptIn then Err(NoLongerPending)
      else if record.tokenExpiresAt.Some? && record.tokenExpiresAt.value < now then Err(TokenExpired)
      else
        var entry := AuditEntry(id, ConfirmDoubleOptIn, Some(record.status), Granted, record.source, Some(CONFIRM_EVIDENCE), now);
        Ok((Ledger(l.records[id := record.(status := Granted, grantedAt := Some(now), revokedAt := None)], l.audit + [entry]),
            id, false))
  }

  // ---- Reading the log ---------------------------------------------------------------

  /** The entries of one row, oldest first. */
  function EntriesOf(audit: seq<AuditEntry>, id: nat): seq<AuditEntry> {
    if audit == [] then []
    else EntriesOf(audit[..|audit| - 1], id) + if audit[|audit| - 1].recordId == id then [audit[|audit| - 1]] else []
  }

  /** The status the logged actions lead to, by the transition table alone. */
  function Replay(entries: seq<AuditEntry>): Option<Status> {
    if entries == [] then None else Next(Replay(entries[..|entries| - 1]), entries[|entries| - 1].action)
  }

  function PreviousStatus(entries: seq<AuditEntry>, k: nat): Option<Status>
    requires k < |entries|
  {
    if k == 0 then None else Some(entries[k - 1].status)
  }

  /** Each entry starts where the one before it ended, by a step of the table. */
  ghost predicate Chained(entries: seq<AuditEntry>) {
    forall k | 0 <= k < |entries| ::
      && entries[k].previous == PreviousStatus(entries, k)
      && Next(entries[k].previous, entries[k].action) == Some(entries[k].status)
  }

  predicate EntersGranted(entry: AuditEntry) {
    entry.status == Granted && entry.previous != Some(Granted)
  }

  /** `at` is the time of the last entry into granted; nothing, when there was none. */
  ghost predicate IsLastGrant(entries: seq<AuditEntry>, at: Option<nat>) {
    match at
    case None => forall k | 0 <= k < |entries| :: !EntersGranted(entries[k])
    case Some(t) =>
      exists k | 0 <= k < |entries| ::
        && EntersGranted(entries[k]) && entries[k].at == t
        && forall m | k < m < |entries| :: !EntersGranted(entries[m])
  }

  /** What a row must show given its entries in the log. */
  ghost predicate RefinesLog(record: ConsentRecord, entries: seq<AuditEntry>) {
    && entries != []
    && Chained(entries)
    && Replay(entries) == Some(record.status)
    && entries[|entries| - 1].status == record.status
    && IsLastGrant(entries, record.grantedAt)
    && record.revokedAt == (if record.status == Revoked then Some(entries[|entries| - 1].at) else None)
    && record.source == entries[|entries| - 1].source
    && (record.status == Granted ==> record.grantedAt.Some?)
  }

  // ---- What every operation keeps ------------------------------------------------------

  ghost predicate UniqueRows(records: seq<ConsentRecord>) {
    forall i, j | 0 <= i < j < |records| :: records[i].identifier != records[j].identifier || records[i].channel != records[j].channel
  }

  /** Tokens are held by rows still waiting or already granted, and by one row each. */
  ghost predicate TokensSound(records: seq<ConsentRecord>) {
    && (forall i | 0 <= i < |records| ::
          && (records[i].tokenHash.Some? ==> records[i].status != Revoked && records[i].tokenExpiresAt.Some?)
          && (records[i].status == PendingDoubleOptIn ==> records[i].tokenHash.Some?))
    && (forall i, j | 0 <= i < j < |records| && records[i].tokenHash.Some? :: records[i].tokenHash != records[j].tokenHash)
  }

  ghost predicate LogSound(l: Ledger) {
    && (forall i | 0 <= i < |l.records| :: RefinesLog(l.records[i], EntriesOf(l.audit, i)))
    && (forall k | 0 <= k < |l.audit| :: l.audit[k].recordId < |l.records|)
  }

  ghost predicate Sound(l: Ledger) {
    && UniqueRows(l.records)
    && (forall i | 0 <= i < |l.records| :: l.records[i].identifier != "")
    && TokensSound(l.records)
    && LogSound(l)
  }

  lemma EntriesAppend(audit: seq<AuditEntry>, entry: AuditEntry, id: nat)
    ensures EntriesOf(audit + [entry], id) == EntriesOf(audit, id) + if entry.recordId == id then [entry] else []
  {
    assert (audit + [entry])[..|audit|] == audit;
  }

  lemma {:induction false} NoEntries(audit: seq<AuditEntry>, id: nat)
    requires forall k | 0 <= k < |audit| :: audit[k].recordId != id
    ensures EntriesOf(audit, id) == []
  {
    if audit != [] { NoEntries(audit[..|audit| - 1], id); }
  }

  lemma LastGrantStep(entries: seq<AuditEntry>, entry: AuditEntry, at: Option<nat>)
    requires IsLastGrant(entries, at)
    ensures IsLastGrant(entries + [entry], if EntersGranted(entry) then Some(entry.at) else at)
  {
    var all := entries + [entry];
    var n := |entries|;
    if EntersGranted(entry) {
      assert EntersGranted(all[n]) && all[n].at == entry.at;
    } else if at.Some? {
      var k :| 0 <= k < n && EntersGranted(entries[k]) && entries[k].at == at.value
            && forall m | k < m < n :: !EntersGranted(entries[m]);
      assert EntersGranted(all[k]) && all[k].at == at.value;
      assert forall m | k < m < |all| :: !EntersGranted(all[m]);
    }
  }

  lemma ChainStep(entries: seq<AuditEntry>, entry: AuditEntry)
    requires Chained(entries)
    requires entry.previous == (if entries == [] then None else Some(entries[|entries| - 1].status))
    requires Next(entry.previous, entry.action) == Some(entry.status)
    requires entries != [] ==> Replay(entries) == Some(entries[|entries| - 1].status)
    ensures Chained(entries + [entry]) && Replay(entries + [entry]) == Some(entry.status)
  {
    hide Next;
    var all := entries + [entry];
    assert all[..|entries|] == entries;
    forall k | 0 <= k < |all|
      ensures all[k].previous == PreviousStatus(all, k) && Next(all[k].previous, all[k].action) == Some(all[k].status)
    {
      if k < |entries| {
        assert entries[k].previous == PreviousStatus(entries, k);
      }
    }
  }

  /** A row written together with its entry still refines its log. */
  lemma RefinementStep(before: Option<ConsentRecord>, after: ConsentRecord, entries: seq<AuditEntry>, entry: AuditEntry)
    requires if before.Some? then RefinesLog(before.value, entries) else entries == []
    requires entry.previous == (if before.Some? then Some(before.value.status) else None)
    requires Next(entry.previous, entry.action) == Some(entry.status) && after.status == entry.status
    requires after.source == entry.source
    requires after.grantedAt == GrantedAtAfter(entry.status, entry.previous, if before.Some? then before.value.grantedAt else None, entry.at)
    requires after.revokedAt == if entry.status == Revoked then Some(entry.at) else None
    ensures RefinesLog(after, entries + [entry])
  {
    ChainStep(entries, entry);
    LastGrantStep(entries, entry, if before.Some? then before.value.grantedAt else None);
    hide Chained, Replay, Next, IsLastGrant;
  }

  /** Replacing row `id`, or adding it, together with its entry keeps the log sound. */
  lemma {:induction false} LogStep(l: Ledger, m: Ledger, id: nat, entry: AuditEntry)
    requires LogSound(l)
    requires id <= |l.records| && entry.recordId == id
    requires m.audit == l.audit + [entry]
    requires id < |m.records|
    requires m.records == (if id < |l.records| then l.records[id := m.records[id]] else l.records + [m.records[id]])
    requires RefinesLog(m.records[id], EntriesOf(l.audit, id) + [entry])
    ensures LogSound(m)
  {
    hide RefinesLog, EntriesOf;
    forall i | 0 <= i < |m.records| ensures RefinesLog(m.records[i], EntriesOf(m.audit, i)) {
      EntriesAppend(l.audit, entry, i);
      if i != id {
        assert RefinesLog(l.records[i], EntriesOf(l.audit, i));
        assert EntriesOf(l.audit, i) + [] == EntriesOf(l.audit, i);
      }
    }
  }

  lemma {:induction false} CaptureLogSound(l: Ledger, input: CaptureInput, contactByEmail: Option<string>, now: nat, token: Token,
                        hash: Token -> Hash)
    requires LogSound(l)
    ensures Capture(l, input, contactByEmail, now, token, hash).Ok? ==> LogSound(Capture(l, input, contactByEmail, now, token, hash).value.0)
  {
    hide Normalize, RefinesLog, EntriesOf, Next;
    if Capture(l, input, contactByEmail, now, token, hash).Ok? {
      var (m, id) := Capture(l, input, contactByEmail, now, token, hash).value;
      var row := FindRecord(l.records, Normalize(input.identifier), input.channel);
      var before := if row.Some? then Some(l.records[row.value]) else None;
      var entry := m.audit[|l.audit|];
      if row.None? { NoEntries(l.audit, id); }
      assert row.Some? ==> RefinesLog(l.records[id], EntriesOf(l.audit, id));
      RefinementStep(before, m.records[id], EntriesOf(l.audit, id), entry);
      LogStep(l, m, id, entry);
    }
  }

  lemma {:induction false} ConfirmLogSound(l: Ledger, token: Token, now: nat, hash: Token -> Hash)
    requires LogSound(l) && Confirm(l, token, now, hash).Ok?
    ensures LogSound(Confirm(l, token, now, hash).value.0)
  {
    hide RefinesLog, EntriesOf;
    var (m, id, already) := Confirm(l, token, now, hash).value;
    if !already {
      var entry := m.audit[|l.audit|];
      assert RefinesLog(l.records[id], EntriesOf(l.audit, id));
      SourceOfLastEntry(l.records[id], EntriesOf(l.audit, id));
      RefinementStep(Some(l.records[id]), m.records[id], EntriesOf(l.audit, id), entry);
      LogStep(l, m, id, entry);
    }
  }

  lemma {:induction false} SourceOfLastEntry(record: ConsentRecord, entries: seq<AuditEntry>)
    requires RefinesLog(record, entries)
    ensures record.source == entries[|entries| - 1].source
  {
  }

  /** The hash of `token` is held by no row. */
  ghost predicate Dead(l: Ledger, token: Token, hash: Token -> Hash) {
    forall i | 0 <= i < |l.records| :: l.records[i].tokenHash != Some(hash(token))
  }

  lemma {:induction false} CaptureKeepsRows(l: Ledger, input: CaptureInput, contactByEmail: Option<string>, now: nat, token: Token,
                         hash: Token -> Hash)
    requires UniqueRows(l.records) && TokensSound(l.records)
    requires forall i | 0 <= i < |l.records| :: l.records[i].identifier != ""
    requires input.action == RequestDoubleOptIn ==> Dead(l, token, hash)
    ensures Capture(l, input, contactByEmail, now, token, hash).Ok? ==>
              var m := Capture(l, input, contactByEmail, now, token, hash).value.0;
              && UniqueRows(m.records)
              && (forall i | 0 <= i < |m.records| :: m.records[i].identifier != "")
              && TokensSound(m.records)
  {
    hide Normalize, Next, StatusOf, FindRecord;
    var identifier := Normalize(input.identifier);
    var row := FindRecord(l.records, identifier, input.channel);
    NextShape(StatusOf(l, row), input.action);
  }

  lemma NextShape(current: Option<Status>, action: Action)
    ensures Next(current, action) == Some(PendingDoubleOptIn) ==> action == RequestDoubleOptIn
    ensures Next(current, action) == Some(Revoked) ==> action == Revoke
    ensures Next(current, action) == Some(Granted) ==> action == Grant || action == ConfirmDoubleOptIn
    ensures action == ConfirmDoubleOptIn && Next(current, action).Some? ==> current == Some(PendingDoubleOptIn)
  {
  }

  lemma {:induction false} CaptureSound(l: Ledger, input: CaptureInput, contactByEmail: Option<string>, now: nat, token: Token,
                     hash: Token -> Hash)
    requires Sound(l)
    requires input.action == RequestDoubleOptIn ==> Dead(l, token, hash)
    ensures Capture(l, input, contactByEmail, now, token, hash).Ok? ==> Sound(Capture(l, input, contactByEmail, now, token, hash).value.0)
  {
    hide Capture;
    CaptureLogSound(l, input, contactByEmail, now, token, hash);
    CaptureKeepsRows(l, input, contactByEmail, now, token, hash);
  }

  lemma ConfirmKeepsRows(l: Ledger, token: Token, now: nat, hash: Token -> Hash)
    requires UniqueRows(l.records) && TokensSound(l.records)
    requires forall i | 0 <= i < |l.records| :: l.records[i].identifier != ""
    requires Confirm(l, token, now, hash).Ok?
    ensures var m := Confirm(l, token, now, hash).value.0;
            && UniqueRows(m.records)
            && (forall i | 0 <= i < |m.records| :: m.records[i].identifier != "")
            && TokensSound(m.records)
  {
  }

  lemma {:induction false} ConfirmSound(l: Ledger, token: Token, now: nat, hash: Token -> Hash)
    requires Sound(l)
    ensures Confirm(l, token, now, hash) != Err(NoLongerPending)
    ensures Confirm(l, token, now, hash).Ok? ==> Sound(Confirm(l, token, now, hash).value.0)
  {
    hide LogSound, UniqueRows;
    if Confirm(l, token, now, hash).Ok? {
      ConfirmLogSound(l, token, now, hash);
      ConfirmKeepsRows(l, token, now, hash);
    }
  }

  // ---- Runs --------------------------------------------------------------------------

  datatype Op =
    | CaptureOp(input: CaptureInput, contactByEmail: Option<string>, now: nat, token: Token)
    | ConfirmOp(token: Token, now: nat)

  const EMPTY_LEDGER := Ledger([], [])

  function Apply(l: Ledger, op: Op, hash: Token -> Hash): Ledger {
    match op
    case CaptureOp(input, contact, now, token) =>
      (match Capture(l, input, contact, now, token, hash)
       case Ok(r) => r.0
       case Err(_) => l)
    case ConfirmOp(token, now) =>
      (match Confirm(l, token, now, hash)
       case Ok(r) => r.0
       case Err(_) => l)
  }

  function Run(ops: seq<Op>, hash: Token -> Hash): Ledger {
    if ops == [] then EMPTY_LEDGER else Apply(Run(ops[..|ops| - 1], hash), ops[|ops| - 1], hash)
  }

  predicate Issues(op: Op, token: Token) {
    op.CaptureOp? && op.input.action == RequestDoubleOptIn && op.token == token
  }

  /** The random generator never repeats a token. */
  ghost predicate FreshTokens(ops: seq<Op>) {
    forall i, j | 0 <= i < j < |ops| && ops[j].CaptureOp? && Issues(ops[i], ops[j].token) :: !Issues(ops[j], ops[j].token)
  }

  ghost predicate CollisionFree(hash: Token -> Hash) {
    forall t, u :: hash(t) == hash(u) ==> t == u
  }

  lemma FreshPrefix(ops: seq<Op>, n: nat)
    requires FreshTokens(ops) && n <= |ops|
    ensures FreshTokens(ops[..n])
  {
  }

  /** The row holds the token that operation `k` issued for its identifier and channel, with its window. */
  predicate HoldsTokenOf(record: ConsentRecord, op: Op, hash: Token -> Hash) {
    && op.CaptureOp? && Issues(op, op.token)
    && record.tokenHash == Some(hash(op.token))
    && record.tokenExpiresAt == Some(op.now + TOKEN_TTL)
    && record.identifier == Normalize(op.input.identifier)
    && record.channel == op.input.channel
  }

  ghost predicate IssuedFor(ops: seq<Op>, record: ConsentRecord, hash: Token -> Hash) {
    exists k: nat | k < |ops| :: HoldsTokenOf(record, ops[k], hash)
  }

  /** Every token held was issued for the very row that holds it. */
  ghost predicate HeldTokensIssued(l: Ledger, ops: seq<Op>, hash: Token -> Hash) {
    forall i | 0 <= i < |l.records| && l.records[i].tokenHash.Some? :: IssuedFor(ops, l.records[i], hash)
  }

  /** The row and its token slot, whatever its status. */
  predicate SameToken(a: ConsentRecord, b: ConsentRecord) {
    && a.identifier == b.identifier && a.channel == b.channel
    && a.tokenHash == b.tokenHash && a.tokenExpiresAt == b.tokenExpiresAt
  }

  lemma IssuedEarlier(ops: seq<Op>, n: nat, before: ConsentRecord, after: ConsentRecord, hash: Token -> Hash)
    requires n <= |ops| && IssuedFor(ops[..n], before, hash) && SameToken(before, after)
    ensures IssuedFor(ops, after, hash)
  {
    hide Normalize;
    var k: nat :| k < n && HoldsTokenOf(before, ops[..n][k], hash);
    assert ops[k] == ops[..n][k];
    assert HoldsTokenOf(after, ops[k], hash);
  }

  /** One operation empties a row's token slot, fills it with the token it issues for that row, or leaves it. */
  lemma ApplyTokens(l: Ledger, op: Op, hash: Token -> Hash, i: nat)
    requires i < |Apply(l, op, hash).records|
    ensures var record := Apply(l, op, hash).records[i];
            || record.tokenHash.None?
            || HoldsTokenOf(record, op, hash)
            || (i < |l.records| && SameToken(l.records[i], record))
  {
    hide Normalize, Next, FindRecord, FindToken;
  }

  lemma {:induction false} RunSound(ops: seq<Op>, hash: Token -> Hash)
    requires CollisionFree(hash) && FreshTokens(ops)
    ensures Sound(Run(ops, hash)) && HeldTokensIssued(Run(ops, hash), ops, hash)
  {
    if ops != [] {
      var n := |ops| - 1;
      var (before, op) := (Run(ops[..n], hash), ops[n]);
      FreshPrefix(ops, n);
      RunSound(ops[..n], hash);
      FreshTokenIsDead(ops, hash);
      StillIssued(ops, hash);
      ApplySound(before, op, hash);
    }
  }

  lemma FreshTokenIsDead(ops: seq<Op>, hash: Token -> Hash)
    requires CollisionFree(hash) && FreshTokens(ops) && ops != []
    requires HeldTokensIssued(Run(ops[..|ops| - 1], hash), ops[..|ops| - 1], hash)
    ensures var op := ops[|ops| - 1];
            op.CaptureOp? && Issues(op, op.token) ==> Dead(Run(ops[..|ops| - 1], hash), op.token, hash)
  {
  }

  lemma {:induction false} StillIssued(ops: seq<Op>, hash: Token -> Hash)
    requires ops != []
    requires HeldTokensIssued(Run(ops[..|ops| - 1], hash), ops[..|ops| - 1], hash)
    ensures HeldTokensIssued(Run(ops, hash), ops, hash)
  {
    var n := |ops| - 1;
    var before, after := Run(ops[..n], hash), Run(ops, hash);
    assert after == Apply(before, ops[n], hash);
    hide Run, Apply;
    forall i | 0 <= i < |after.records| && after.records[i].tokenHash.Some?
      ensures IssuedFor(ops, after.records[i], hash)
    {
      ApplyTokens(before, ops[n], hash, i);
      if HoldsTokenOf(after.records[i], ops[n], hash) {
        assert IssuedFor(ops, after.records[i], hash);
      } else {
        IssuedEarlier(ops, n, before.records[i], after.records[i], hash);
      }
    }
  }

  lemma {:induction false} ApplySound(l: Ledger, op: Op, hash: Token -> Hash)
    requires Sound(l)
    requires op.CaptureOp? && Issues(op, op.token) ==> Dead(l, op.token, hash)
    ensures Sound(Apply(l, op, hash))
  {
    hide Sound, Capture, Confirm;
    match op
    case CaptureOp(input, contact, now, token) =>
      if Capture(l, input, contact, now, token, hash).Ok? {
        CaptureSound(l, input, contact, now, token, hash);
      }
    case ConfirmOp(token, now) =>
      ConfirmSound(l, token, now, hash);
  }

  // ---- Main results ------------------------------------------------------------------

  lemma RowFound(records: seq<ConsentRecord>, i: nat)
    requires UniqueRows(records) && i < |records|
    ensures FindRecord(records, records[i].identifier, records[i].channel) == Some(i)
  {
    var found := FindRecord(records, records[i].identifier, records[i].channel);
    hide FindRecord;
  }

  lemma RunStep(ops: seq<Op>, hash: Token -> Hash)
    requires ops != []
    ensures Run(ops, hash) == Apply(Run(ops[..|ops| - 1], hash), ops[|ops| - 1], hash)
  {
  }

  /** In every run there is one row per identifier and channel, and it shows what its log says. */
  lemma {:induction false} RowsRefineTheLog(ops: seq<Op>, hash: Token -> Hash, i: nat)
    requires CollisionFree(hash) && FreshTokens(ops)
    requires i < |Run(ops, hash).records|
    ensures var l := Run(ops, hash);
            var (record, entries) := (l.records[i], EntriesOf(l.audit, i));
            && FindRecord(l.records, record.identifier, record.channel) == Some(i)
            && Chained(entries)
            && Replay(entries) == Some(record.status)
            && IsLastGrant(entries, record.grantedAt)
            && record.revokedAt == if record.status == Revoked then Some(entries[|entries| - 1].at) else None
  {
    RunSound(ops, hash);
    hide Run, HeldTokensIssued, TokensSound, Chained, Replay, IsLastGrant, EntriesOf, FindRecord;
    var l := Run(ops, hash);
    assert RefinesLog(l.records[i], EntriesOf(l.audit, i));
    RowFound(l.records, i);
  }

  /** The "no longer pending" refusal never happens. */
  lemma NoLongerPendingUnreachable(ops: seq<Op>, token: Token, now: nat, hash: Token -> Hash)
    requires CollisionFree(hash) && FreshTokens(ops)
    ensures Confirm(Run(ops, hash), token, now, hash) != Err(NoLongerPending)
  {
    RunSound(ops, hash);
    hide Sound;
    ConfirmSound(Run(ops, hash), token, now, hash);
  }

  lemma DeadStaysDeadStep(l: Ledger, op: Op, token: Token, hash: Token -> Hash)
    requires CollisionFree(hash) && Dead(l, token, hash) && !Issues(op, token)
    ensures Dead(Apply(l, op, hash), token, hash)
  {
    var m := Apply(l, op, hash);
    forall i | 0 <= i < |m.records| ensures m.records[i].tokenHash != Some(hash(token)) {
      ApplyTokens(l, op, hash, i);
    }
  }

  lemma FreshAfterIssue(ops: seq<Op>, k: nat, j: nat, token: Token)
    requires FreshTokens(ops) && k < j < |ops| && Issues(ops[k], token)
    ensures !Issues(ops[j], token)
  {
    if ops[j].CaptureOp? && ops[j].token == token {
      assert Issues(ops[k], ops[j].token);
    }
  }

  lemma PrefixOfPrefix(ops: seq<Op>, n: nat, last: nat)
    requires n <= last <= |ops|
    ensures ops[..last][..n] == ops[..n]
    ensures forall k | 0 <= k < last :: ops[..last][k] == ops[k]
  {
  }

  lemma {:induction false} DeadStays(ops: seq<Op>, n: nat, k: nat, token: Token, hash: Token -> Hash)
    requires CollisionFree(hash) && FreshTokens(ops)
    requires k < n <= |ops| && Issues(ops[k], token)
    requires Dead(Run(ops[..n], hash), token, hash)
    ensures Dead(Run(ops, hash), token, hash)
    decreases |ops|
  {
    hide *;
    if n == |ops| {
      assert ops[..n] == ops;
    } else {
      var last := |ops| - 1;
      RunStep(ops, hash);
      FreshPrefix(ops, last);
      PrefixOfPrefix(ops, n, last);
      DeadStays(ops[..last], n, k, token, hash);
      FreshAfterIssue(ops, k, last, token);
      DeadStaysDeadStep(Run(ops[..last], hash), ops[last], token, hash);
    }
  }

  /** Once an issued token is held by no row it never confirms anything again. */
  lemma {:induction false} DeadTokensStayDead(ops: seq<Op>, n: nat, k: nat, token: Token, now: nat, hash: Token -> Hash)
    requires CollisionFree(hash) && FreshTokens(ops)
    requires k < n <= |ops| && Issues(ops[k], token)
    requires Dead(Run(ops[..n], hash), token, hash)
    ensures Confirm(Run(ops, hash), token, now, hash) == Err(UnknownToken)
  {
    DeadStays(ops, n, k, token, hash);
    hide Run, FreshTokens;
  }

  /** A row that holds a token holds that of the request which issued it. */
  lemma {:induction false} HolderIsIssuer(ops: seq<Op>, k: nat, token: Token, i: nat, hash: Token -> Hash)
    requires CollisionFree(hash) && FreshTokens(ops)
    requires k < |ops| && Issues(ops[k], token)
    requires i < |Run(ops, hash).records| && Run(ops, hash).records[i].tokenHash == Some(hash(token))
    ensures HoldsTokenOf(Run(ops, hash).records[i], ops[k], hash)
  {
    RunSound(ops, hash);
    hide Run, Sound, Normalize, FreshTokens;
    var record := Run(ops, hash).records[i];
    var j: nat :| j < |ops| && HoldsTokenOf(record, ops[j], hash);
    assert ops[j].token == token;
    if j < k { FreshAfterIssue(ops, j, k, token); }
    if k < j { FreshAfterIssue(ops, k, j, token); }
  }

  predicate Accepted(ops: seq<Op>, n: nat, hash: Token -> Hash)
    requires n < |ops| && ops[n].CaptureOp?
  {
    Capture(Run(ops[..n], hash), ops[n].input, ops[n].contactByEmail, ops[n].now, ops[n].token, hash).Ok?
  }

  /** Operation `n` is a later accepted capture on the identifier and channel of operation `k`: a revoke, a
      direct grant or a new request. */
  predicate Recaptures(ops: seq<Op>, n: nat, k: nat, hash: Token -> Hash)
    requires k < |ops| && ops[k].CaptureOp?
  {
    && k < n < |ops| && ops[n].CaptureOp?
    && Normalize(ops[n].input.identifier) == Normalize(ops[k].input.identifier)
    && ops[n].input.channel == ops[k].input.channel
    && Accepted(ops, n, hash)
  }

  /** The row a capture writes, and its token slot; every other row stays. */
  lemma {:induction false} CaptureWrites(l: Ledger, input: CaptureInput, contactByEmail: Option<string>, now: nat, token: Token,
                                         hash: Token -> Hash)
    requires Capture(l, input, contactByEmail, now, token, hash).Ok?
    ensures var (m, id) := Capture(l, input, contactByEmail, now, token, hash).value;
            var found := FindRecord(l.records, Normalize(input.identifier), input.channel);
            && id < |m.records| && id == found.GetOr(|l.records|)
            && m.records[id].identifier == Normalize(input.identifier) && m.records[id].channel == input.channel
            && m.records[id].tokenHash == (if input.action == RequestDoubleOptIn then Some(hash(token)) else None)
            && m.records[id].tokenExpiresAt == (if input.action == RequestDoubleOptIn then Some(now + TOKEN_TTL) else None)
            && |m.records| == (if found.Some? then |l.records| else |l.records| + 1)
            && (m.records[id].status == Granted ==> input.action == Grant || input.action == ConfirmDoubleOptIn)
            && forall i | 0 <= i < |l.records| && i != id :: m.records[i] == l.records[i]
  {
    var found := FindRecord(l.records, Normalize(input.identifier), input.channel);
    NextShape(StatusOf(l, found), input.action);
    hide Normalize, Next, GrantedAtAfter, FindRecord;
  }

  /** A capture takes its row's token, and puts in no token but the one it issues. */
  lemma {:induction false} CaptureClears(l: Ledger, op: Op, hash: Token -> Hash, h: Hash)
    requires UniqueRows(l.records) && op.CaptureOp?
    requires Capture(l, op.input, op.contactByEmail, op.now, op.token, hash).Ok?
    requires op.input.action == RequestDoubleOptIn ==> hash(op.token) != h
    requires forall i | 0 <= i < |l.records| && l.records[i].tokenHash == Some(h) ::
               l.records[i].identifier == Normalize(op.input.identifier) && l.records[i].channel == op.input.channel
    ensures forall i | 0 <= i < |Apply(l, op, hash).records| :: Apply(l, op, hash).records[i].tokenHash != Some(h)
  {
    CaptureWrites(l, op.input, op.contactByEmail, op.now, op.token, hash);
    var (m, id) := Capture(l, op.input, op.contactByEmail, op.now, op.token, hash).value;
    assert m == Apply(l, op, hash);
    hide Capture, Normalize, FindRecord, Apply, UniqueRows;
    forall i: nat | i < |l.records| && l.records[i].tokenHash == Some(h) ensures i == id {
      RowFound(l.records, i);
    }
  }

  /** A later capture on the same row leaves the token with no row. */
  lemma {:induction false} RecaptureKills(ops: seq<Op>, n: nat, k: nat, token: Token, hash: Token -> Hash)
    requires CollisionFree(hash) && FreshTokens(ops)
    requires k < |ops| && Issues(ops[k], token) && Recaptures(ops, n, k, hash)
    ensures Dead(Run(ops[..n + 1], hash), token, hash)
  {
    var (l, op) := (Run(ops[..n], hash), ops[n]);
    FreshPrefix(ops, n);
    FreshAfterIssue(ops, k, n, token);
    RunSound(ops[..n], hash);
    PrefixOfPrefix(ops, n, n + 1);
    RunStep(ops[..n + 1], hash);
    assert UniqueRows(l.records);
    hide Run, Capture, Normalize, FreshTokens, Sound, FindRecord, Apply, HeldTokensIssued, UniqueRows;
    forall i | 0 <= i < |l.records| && l.records[i].tokenHash == Some(hash(token))
      ensures l.records[i].identifier == Normalize(op.input.identifier) && l.records[i].channel == op.input.channel
    {
      HolderIsIssuer(ops[..n], k, token, i, hash);
    }
    CaptureClears(l, op, hash, hash(token));
  }

  /** After a revoke, a direct grant or a new request no earlier token of that identifier and channel ever confirms. */
  lemma {:induction false} RecaptureEndsToken(ops: seq<Op>, n: nat, k: nat, token: Token, now: nat, hash: Token -> Hash)
    requires CollisionFree(hash) && FreshTokens(ops)
    requires k < |ops| && Issues(ops[k], token) && Recaptures(ops, n, k, hash)
    ensures Confirm(Run(ops, hash), token, now, hash) == Err(UnknownToken)
  {
    RecaptureKills(ops, n, k, token, hash);
    DeadTokensStayDead(ops, n + 1, k, token, now, hash);
  }

  /** Nothing but a capture on its identifier and channel takes a row's token. */
  lemma {:induction false} OthersKeepToken(l: Ledger, op: Op, i: nat, hash: Token -> Hash)
    requires i < |l.records|
    requires op.CaptureOp? && Capture(l, op.input, op.contactByEmail, op.now, op.token, hash).Ok? ==>
               l.records[i].identifier != Normalize(op.input.identifier) || l.records[i].channel != op.input.channel
    ensures i < |Apply(l, op, hash).records| && SameToken(l.records[i], Apply(l, op, hash).records[i])
  {
    if op.CaptureOp? && Capture(l, op.input, op.contactByEmail, op.now, op.token, hash).Ok? {
      CaptureWrites(l, op.input, op.contactByEmail, op.now, op.token, hash);
    }
    hide Capture, Normalize;
  }

  /** An accepted request leaves its token with its row. */
  lemma {:induction false} TokenWritten(ops: seq<Op>, k: nat, hash: Token -> Hash) returns (i: nat)
    requires k < |ops| && ops[k].CaptureOp? && Issues(ops[k], ops[k].token) && Accepted(ops, k, hash)
    ensures i < |Run(ops[..k + 1], hash).records| && HoldsTokenOf(Run(ops[..k + 1], hash).records[i], ops[k], hash)
  {
    var (l, op) := (Run(ops[..k], hash), ops[k]);
    PrefixOfPrefix(ops, k, k + 1);
    RunStep(ops[..k + 1], hash);
    CaptureWrites(l, op.input, op.contactByEmail, op.now, op.token, hash);
    i := Capture(l, op.input, op.contactByEmail, op.now, op.token, hash).value.1;
    hide Run, Capture, Normalize, FindRecord;
  }

  /** An issued token stays with its row until the next capture there. */
  lemma {:induction false} TokenKept(ops: seq<Op>, n: nat, k: nat, hash: Token -> Hash) returns (i: nat)
    requires k < n <= |ops| && ops[k].CaptureOp? && Issues(ops[k], ops[k].token) && Accepted(ops, k, hash)
    requires forall m | k < m < n :: !Recaptures(ops, m, k, hash)
    ensures i < |Run(ops[..n], hash).records| && HoldsTokenOf(Run(ops[..n], hash).records[i], ops[k], hash)
    decreases n
  {
    hide Accepted, Run, HoldsTokenOf, Recaptures;
    if n == k + 1 {
      i := TokenWritten(ops, k, hash);
    } else {
      i := TokenKept(ops, n - 1, k, hash);
      TokenKeptStep(ops, n - 1, k, i, hash);
    }
  }

  lemma SameTokenHolds(a: ConsentRecord, b: ConsentRecord, op: Op, hash: Token -> Hash)
    requires HoldsTokenOf(a, op, hash) && SameToken(a, b)
    ensures HoldsTokenOf(b, op, hash)
  {
    hide Normalize;
  }

  lemma HolderKey(record: ConsentRecord, op: Op, hash: Token -> Hash)
    requires HoldsTokenOf(record, op, hash)
    ensures op.CaptureOp? && record.identifier == Normalize(op.input.identifier) && record.channel == op.input.channel
  {
  }

  lemma {:induction false} CaptureElsewhere(ops: seq<Op>, n: nat, k: nat, hash: Token -> Hash)
    requires k < n < |ops| && ops[k].CaptureOp? && !Recaptures(ops, n, k, hash) && ops[n].CaptureOp? && Accepted(ops, n, hash)
    ensures Normalize(ops[n].input.identifier) != Normalize(ops[k].input.identifier) || ops[n].input.channel != ops[k].input.channel
  {
    hide Normalize, Accepted;
  }

  lemma {:induction false} TokenKeptStep(ops: seq<Op>, n: nat, k: nat, i: nat, hash: Token -> Hash)
    requires k < n < |ops| && ops[k].CaptureOp? && !Recaptures(ops, n, k, hash)
    requires i < |Run(ops[..n], hash).records| && HoldsTokenOf(Run(ops[..n], hash).records[i], ops[k], hash)
    ensures i < |Run(ops[..n + 1], hash).records| && HoldsTokenOf(Run(ops[..n + 1], hash).records[i], ops[k], hash)
  {
    var l := Run(ops[..n], hash);
    PrefixOfPrefix(ops, n, n + 1);
    RunStep(ops[..n + 1], hash);
    hide Run, Normalize, Capture, Apply, HoldsTokenOf, Recaptures, SameToken;
    HolderKey(l.records[i], ops[k], hash);
    if ops[n].CaptureOp? && Accepted(ops, n, hash) {
      CaptureElsewhere(ops, n, k, hash);
    }
    OthersKeepToken(l, ops[n], i, hash);
    SameTokenHolds(l.records[i], Apply(l, ops[n], hash).records[i], ops[k], hash);
  }

  /** The confirmation finds the row that holds the token. */
  lemma {:induction false} KnownToken(l: Ledger, i: nat, token: Token, now: nat, hash: Token -> Hash)
    requires TokensSound(l.records) && i < |l.records| && l.records[i].tokenHash == Some(hash(token))
    ensures var outcome := Confirm(l, token, now, hash);
            if l.records[i].status == Granted || now <= l.records[i].tokenExpiresAt.GetOr(now)
            then outcome.Ok? && outcome.value.1 == i
            else outcome == Err(TokenExpired)
  {
    var found := FindToken(l.records, hash(token));
    hide FindToken;
    assert found == Some(i);
  }

  /** While a row holds a token, the token confirms that row unless it has expired there. */
  lemma {:induction false} HeldTokenOutcome(l: Ledger, op: Op, i: nat, now: nat, hash: Token -> Hash)
    requires UniqueRows(l.records) && TokensSound(l.records)
    requires i < |l.records| && HoldsTokenOf(l.records[i], op, hash)
    ensures FindRecord(l.records, Normalize(op.input.identifier), op.input.channel) == Some(i)
    ensures var outcome := Confirm(l, op.token, now, hash);
            if l.records[i].status == Granted || now <= op.now + TOKEN_TTL then outcome.Ok? && outcome.value.1 == i
            else outcome == Err(TokenExpired)
  {
    hide Normalize, FindRecord, FindToken, Confirm;
    RowFound(l.records, i);
    KnownToken(l, i, op.token, now, hash);
  }

  /** Until the next capture on its identifier and channel, an issued token confirms, unless its seven days have
      passed with the row still pending. */
  lemma {:induction false} TokenHolds(ops: seq<Op>, k: nat, token: Token, now: nat, hash: Token -> Hash)
    requires CollisionFree(hash) && FreshTokens(ops)
    requires k < |ops| && Issues(ops[k], token) && Accepted(ops, k, hash)
    requires forall n :: !Recaptures(ops, n, k, hash)
    ensures var l := Run(ops, hash);
            var row := FindRecord(l.records, Normalize(ops[k].input.identifier), ops[k].input.channel);
            var outcome := Confirm(l, token, now, hash);
            && row.Some?
            && if l.records[row.value].status == Granted || now <= ops[k].now + 7 * 24 * 60 * 60 * 1000
               then outcome.Ok? && outcome.value.1 == row.value
               else outcome == Err(TokenExpired)
  {
    RunSound(ops, hash);
    assert UniqueRows(Run(ops, hash).records) && TokensSound(Run(ops, hash).records);
    assert ops[..|ops|] == ops;
    hide Run, Sound, HeldTokensIssued, Normalize, FreshTokens, Accepted, Recaptures, Confirm, FindRecord, HoldsTokenOf,
         UniqueRows, TokensSound, CollisionFree;
    var i := TokenKept(ops, |ops|, k, hash);
    HeldTokenOutcome(Run(ops, hash), ops[k], i, now, hash);
  }

  /** What becomes of a token a request issued: it is unknown exactly after a later capture on that identifier
      and channel; until then it confirms, unless its seven days have passed with the row still pending. */
  lemma {:induction false} TokenFate(ops: seq<Op>, k: nat, token: Token, now: nat, hash: Token -> Hash)
    requires CollisionFree(hash) && FreshTokens(ops)
    requires k < |ops| && Issues(ops[k], token) && Accepted(ops, k, hash)
    ensures var l := Run(ops, hash);
            var outcome := Confirm(l, token, now, hash);
            if exists n :: Recaptures(ops, n, k, hash) then outcome == Err(UnknownToken)
            else if StatusAt(l, Normalize(ops[k].input.identifier), ops[k].input.channel) == Some(Granted)
                    || now <= ops[k].now + 7 * 24 * 60 * 60 * 1000 then
              outcome.Ok? && FindRecord(l.records, Normalize(ops[k].input.identifier), ops[k].input.channel) == Some(outcome.value.1)
            else outcome == Err(TokenExpired)
  {
    hide Run, Normalize, FreshTokens, Accepted, Recaptures, Confirm, FindRecord, CollisionFree;
    if n :| Recaptures(ops, n, k, hash) {
      RecaptureEndsToken(ops, n, k, token, now, hash);
    } else {
      TokenHolds(ops, k, token, now, hash);
    }
  }

  /** A confirmation speaks for the request that issued the token: it names the row of that request's identifier
      and channel, and grants only it, within seven days of the request. */
  lemma {:induction false} ConfirmGrantsIssuer(ops: seq<Op>, token: Token, now: nat, hash: Token -> Hash) returns (k: nat)
    requires CollisionFree(hash) && FreshTokens(ops)
    requires Confirm(Run(ops, hash), token, now, hash).Ok?
    ensures k < |ops| && Issues(ops[k], token)
    ensures var l := Run(ops, hash);
            var (m, id, already) := Confirm(l, token, now, hash).value;
            && id < |l.records| == |m.records|
            && l.records[id].identifier == Normalize(ops[k].input.identifier)
            && l.records[id].channel == ops[k].input.channel
            && (already ==> m == l && l.records[id].status == Granted)
            && (!already ==>
                  && now <= ops[k].now + 7 * 24 * 60 * 60 * 1000
                  && l.records[id].status == PendingDoubleOptIn
                  && m.records[id] == l.records[id].(status := Granted, grantedAt := Some(now), revokedAt := None)
                  && m.audit == l.audit + [AuditEntry(id, ConfirmDoubleOptIn, Some(PendingDoubleOptIn), Granted, l.records[id].source,
                                                      Some("Double opt-in link confirmed"), now)]
                  && forall j | 0 <= j < |l.records| && j != id :: m.records[j] == l.records[j])
  {
    RunSound(ops, hash);
    var l := Run(ops, hash);
    hide Run, Normalize, FreshTokens;
    var id := Confirm(l, token, now, hash).value.1;
    assert IssuedFor(ops, l.records[id], hash);
    k :| k < |ops| && HoldsTokenOf(l.records[id], ops[k], hash);
    hide Sound;
  }

  // ---- Statuses over a run ---------------------------------------------------------------

  function StatusAt(l: Ledger, identifier: string, channel: Channel): Option<Status> {
    StatusOf(l, FindRecord(l.records, identifier, channel))
  }

  // ---- Which captures are accepted -----------------------------------------------------------

  lemma {:induction false} FoundAgain(records: seq<ConsentRecord>, identifier: string, channel: Channel, written: ConsentRecord)
    requires written.identifier == identifier && written.channel == channel
    ensures FindRecord(records + [written], identifier, channel) == Some(|records|)
    ensures var found := FindRecord(records, identifier, channel);
            found.Some? ==> FindRecord(records[found.value := written], identifier, channel) == found
    decreases |records|
  {
    assert (records + [written])[..|records|] == records;
    if records != [] {
      var n := |records| - 1;
      var found := FindRecord(records[..n], identifier, channel);
      FoundAgain(records[..n], identifier, channel, written);
      if found.Some? {
        assert records[found.value := written][..n] == records[..n][found.value := written];
      }
    }
  }

  /** The capture is accepted, and its row has this status now. */
  ghost predicate Takes(r: Result<(Ledger, nat), Error>, input: CaptureInput, status: Status) {
    r.Ok? && StatusAt(r.value.0, Normalize(input.identifier), input.channel) == Some(status)
  }

  /** The row found or added, and the log entry, as the request asked. A contact once known is kept; only a request holds a token. */
  ghost predicate WroteAsAsked(l: Ledger, m: Ledger, id: nat, input: CaptureInput, contactByEmail: Option<string>, now: nat, tokenHash: Hash) {
    var found := FindRecord(l.records, Normalize(input.identifier), input.channel);
    && id == found.GetOr(|l.records|) && id < |m.records|
    && |m.audit| == |l.audit| + 1 && m.audit[..|l.audit|] == l.audit
    && var (row, entry) := (m.records[id], m.audit[|l.audit|]);
       && row.identifier == Normalize(input.identifier) && row.channel == input.channel
       && row.source == input.source == entry.source && row.evidence == input.evidence == entry.evidence
       && entry.recordId == id && entry.action == input.action && entry.status == row.status && entry.at == now
       && entry.previous == (if found.Some? then Some(l.records[id].status) else None)
       && (if input.action == RequestDoubleOptIn
           then row.tokenHash == Some(tokenHash) && row.tokenExpiresAt == Some(now + 7 * 24 * 60 * 60 * 1000)
           else row.tokenHash == None && row.tokenExpiresAt == None)
       && (if input.contactId.Some? then row.contactId == input.contactId
           else if found.Some? && l.records[id].contactId.Some? then row.contactId == l.records[id].contactId
           else row.contactId == if input.channel == Email then contactByEmail else None)
  }

  /** A revocation and a direct grant are always accepted, a double opt-in exactly where consent is not granted yet, and
      its confirmation by capture exactly where one is pending. */
  lemma {:induction false} CaptureOutcome(l: Ledger, input: CaptureInput, contactByEmail: Option<string>, now: nat, token: Token,
                                          hash: Token -> Hash)
    ensures var r := Capture(l, input, contactByEmail, now, token, hash);
            var current := StatusAt(l, Normalize(input.identifier), input.channel);
            if Normalize(input.identifier) == "" then r == Err(IdentifierRequired)
            else if input.source == "" then r == Err(SourceRequired)
            else match input.action
                 case Revoke => Takes(r, input, Revoked)
                 case Grant => Takes(r, input, Granted)
                 case RequestDoubleOptIn =>
                   if current == Some(Granted) then r == Err(InvalidTransition) else Takes(r, input, PendingDoubleOptIn)
                 case ConfirmDoubleOptIn =>
                   if current == Some(PendingDoubleOptIn) then Takes(r, input, Granted) else r == Err(InvalidTransition)
    ensures var r := Capture(l, input, contactByEmail, now, token, hash);
            r.Ok? ==> WroteAsAsked(l, r.value.0, r.value.1, input, contactByEmail, now, hash(token))
  {
    var r := Capture(l, input, contactByEmail, now, token, hash);
    if r.Ok? {
      FoundAgain(l.records, Normalize(input.identifier), input.channel, r.value.0.records[r.value.1]);
    }
    hide Normalize, FindRecord, GrantedAtAfter;
  }

  /** An accepted revocation leaves its identifier and channel revoked. */
  lemma {:induction false} RevokedAfter(l: Ledger, input: CaptureInput, contactByEmail: Option<string>, now: nat, token: Token,
                                        hash: Token -> Hash)
    requires Capture(l, input, contactByEmail, now, token, hash).Ok? && input.action == Revoke
    requires UniqueRows(Capture(l, input, contactByEmail, now, token, hash).value.0.records)
    ensures StatusAt(Capture(l, input, contactByEmail, now, token, hash).value.0, Normalize(input.identifier), input.channel) == Some(Revoked)
  {
    CaptureWrites(l, input, contactByEmail, now, token, hash);
    hide Normalize, FindRecord, UniqueRows;
    var (m, id) := Capture(l, input, contactByEmail, now, token, hash).value;
    RowFound(m.records, id);
  }

  /** Rows keep their identifier and channel, and none goes. */
  lemma {:induction false} StatusPersists(l: Ledger, op: Op, identifier: string, channel: Channel, hash: Token -> Hash)
    requires StatusAt(l, identifier, channel).Some?
    ensures StatusAt(Apply(l, op, hash), identifier, channel).Some?
  {
    if op.CaptureOp? && Capture(l, op.input, op.contactByEmail, op.now, op.token, hash).Ok? {
      CaptureWrites(l, op.input, op.contactByEmail, op.now, op.token, hash);
    }
    hide Normalize, Capture, FindToken;
    var i := FindRecord(l.records, identifier, channel).value;
    var m := Apply(l, op, hash);
    assert i < |m.records| && m.records[i].identifier == identifier && m.records[i].channel == channel;
    hide FindRecord;
  }

  /** What turns a status into granted: a capture that grants, or a first confirmation, of that very row. */
  lemma {:induction false} BecomesGranted(l: Ledger, op: Op, identifier: string, channel: Channel, hash: Token -> Hash)
    requires UniqueRows(l.records)
    requires StatusAt(l, identifier, channel) != Some(Granted) && StatusAt(Apply(l, op, hash), identifier, channel) == Some(Granted)
    ensures match op
            case CaptureOp(input, _, _, _) =>
              && Normalize(input.identifier) == identifier && input.channel == channel
              && (input.action == Grant || input.action == ConfirmDoubleOptIn)
            case ConfirmOp(token, now) =>
              && Confirm(l, token, now, hash).Ok?
              && var (_, id, already) := Confirm(l, token, now, hash).value;
                 !already && id < |l.records| && l.records[id].identifier == identifier && l.records[id].channel == channel
  {
    var m := Apply(l, op, hash);
    var i := FindRecord(m.records, identifier, channel).value;
    assert m.records[i].status == Granted && m.records[i].identifier == identifier && m.records[i].channel == channel;
    hide Normalize, FindRecord, FindToken;
    if i < |l.records| && m.records[i] == l.records[i] {
      RowFound(l.records, i);
    }
    match op
    case CaptureOp(input, contact, now, token) =>
      if Capture(l, input, contact, now, token, hash).Ok? {
        CaptureWrites(l, input, contact, now, token, hash);
      }
      hide Capture;
    case ConfirmOp(_, _) =>
  }

  // ---- After a revocation ------------------------------------------------------------------

  /** Operation `r` revokes the identifier on the channel; it names both an identifier and a source. */
  predicate Revokes(ops: seq<Op>, r: nat, identifier: string, channel: Channel) {
    && r < |ops| && ops[r].CaptureOp? && ops[r].input.action == Revoke && ops[r].input.source != ""
    && Normalize(ops[r].input.identifier) == identifier && identifier != "" && ops[r].input.channel == channel
  }

  lemma RevokeAccepted(ops: seq<Op>, r: nat, identifier: string, channel: Channel, hash: Token -> Hash)
    requires Revokes(ops, r, identifier, channel)
    ensures Accepted(ops, r, hash)
  {
    CaptureOutcome(Run(ops[..r], hash), ops[r].input, ops[r].contactByEmail, ops[r].now, ops[r].token, hash);
    hide Capture, Run, Normalize, StatusAt;
  }

  /** The operation asks for a double opt-in of the identifier, and issues the token. */
  predicate Asks(op: Op, token: Token, identifier: string, channel: Channel) {
    Issues(op, token) && Normalize(op.input.identifier) == identifier && op.input.channel == channel
  }

  function StatusAfter(ops: seq<Op>, n: nat, identifier: string, channel: Channel, hash: Token -> Hash): Option<Status>
    requires n <= |ops|
  {
    StatusAt(Run(ops[..n], hash), identifier, channel)
  }

  /** Operation `j` grants anew: the status turns to granted by it, and it captures a grant, or confirms a token that
      was asked for after operation `r`. */
  ghost predicate Regrants(ops: seq<Op>, r: nat, j: nat, identifier: string, channel: Channel, hash: Token -> Hash) {
    && r < j < |ops|
    && StatusAfter(ops, j, identifier, channel, hash) != Some(Granted)
    && StatusAfter(ops, j + 1, identifier, channel, hash) == Some(Granted)
    && match ops[j]
       case CaptureOp(input, _, _, _) =>
         && Normalize(input.identifier) == identifier && input.channel == channel
         && (input.action == Grant || input.action == ConfirmDoubleOptIn)
       case ConfirmOp(token, _) => exists k | r < k < j :: Asks(ops[k], token, identifier, channel)
  }

  lemma {:induction false} RevokedNext(ops: seq<Op>, r: nat, identifier: string, channel: Channel, hash: Token -> Hash)
    requires CollisionFree(hash) && FreshTokens(ops) && Revokes(ops, r, identifier, channel)
    ensures StatusAfter(ops, r + 1, identifier, channel, hash) == Some(Revoked)
  {
    var op := ops[r];
    RevokeAccepted(ops, r, identifier, channel, hash);
    PrefixOfPrefix(ops, r, r + 1);
    RunStep(ops[..r + 1], hash);
    FreshPrefix(ops, r + 1);
    RunSound(ops[..r + 1], hash);
    assert UniqueRows(Run(ops[..r + 1], hash).records);
    hide Run, Capture, Normalize, StatusAt, Sound, FreshTokens, HeldTokensIssued, UniqueRows;
    RevokedAfter(Run(ops[..r], hash), op.input, op.contactByEmail, op.now, op.token, hash);
  }

  /** From a status other than granted a granted one is reached by an operation that grants. */
  lemma {:induction false} GrantedBetween(ops: seq<Op>, a: nat, b: nat, identifier: string, channel: Channel, hash: Token -> Hash)
      returns (j: nat)
    requires a <= b <= |ops|
    requires StatusAfter(ops, a, identifier, channel, hash) != Some(Granted)
    requires StatusAfter(ops, b, identifier, channel, hash) == Some(Granted)
    ensures a <= j < b
    ensures StatusAfter(ops, j, identifier, channel, hash) != Some(Granted)
    ensures StatusAfter(ops, j + 1, identifier, channel, hash) == Some(Granted)
    decreases b
  {
    hide StatusAfter;
    if StatusAfter(ops, b - 1, identifier, channel, hash) == Some(Granted) {
      j := GrantedBetween(ops, a, b - 1, identifier, channel, hash);
    } else {
      j := b - 1;
    }
  }

  lemma {:induction false} KnownNext(ops: seq<Op>, n: nat, identifier: string, channel: Channel, hash: Token -> Hash)
    requires n < |ops| && StatusAfter(ops, n, identifier, channel, hash).Some?
    ensures StatusAfter(ops, n + 1, identifier, channel, hash).Some?
  {
    PrefixOfPrefix(ops, n, n + 1);
    RunStep(ops[..n + 1], hash);
    hide Run, StatusAt, Apply;
    StatusPersists(Run(ops[..n], hash), ops[n], identifier, channel, hash);
  }

  /** A row, once there, stays. */
  lemma {:induction false} KnownStays(ops: seq<Op>, a: nat, b: nat, identifier: string, channel: Channel, hash: Token -> Hash)
    requires a <= b <= |ops| && StatusAfter(ops, a, identifier, channel, hash).Some?
    ensures StatusAfter(ops, b, identifier, channel, hash).Some?
    decreases b
  {
    hide StatusAfter;
    if a < b {
      KnownStays(ops, a, b - 1, identifier, channel, hash);
      KnownNext(ops, b - 1, identifier, channel, hash);
    }
  }

  /** The token a later confirmation of the row takes was asked for after the revocation. */
  lemma {:induction false} ConfirmedIsNewer(ops: seq<Op>, r: nat, token: Token, now: nat, identifier: string, channel: Channel,
                                            hash: Token -> Hash) returns (k: nat)
    requires CollisionFree(hash) && FreshTokens(ops) && Revokes(ops, r, identifier, channel)
    requires Confirm(Run(ops, hash), token, now, hash).Ok?
    requires var l := Run(ops, hash); var id := Confirm(l, token, now, hash).value.1;
             id < |l.records| && l.records[id].identifier == identifier && l.records[id].channel == channel
    ensures r < k < |ops| && Asks(ops[k], token, identifier, channel)
  {
    hide Run, Normalize, FreshTokens, Confirm, CollisionFree, Accepted;
    k := ConfirmGrantsIssuer(ops, token, now, hash);
    if k < r {
      RevokeAccepted(ops, r, identifier, channel, hash);
      assert Recaptures(ops, r, k, hash);
      RecaptureEndsToken(ops, r, k, token, now, hash);
    }
  }

  lemma {:induction false} RegrantingStep(ops: seq<Op>, r: nat, j: nat, identifier: string, channel: Channel, hash: Token -> Hash)
    requires CollisionFree(hash) && FreshTokens(ops) && Revokes(ops, r, identifier, channel) && r < j < |ops|
    requires StatusAfter(ops, j, identifier, channel, hash) != Some(Granted)
    requires StatusAfter(ops, j + 1, identifier, channel, hash) == Some(Granted)
    ensures Regrants(ops, r, j, identifier, channel, hash)
  {
    PrefixOfPrefix(ops, j, j + 1);
    RunStep(ops[..j + 1], hash);
    FreshPrefix(ops, j);
    RunSound(ops[..j], hash);
    assert UniqueRows(Run(ops[..j], hash).records);
    RevokesPrefix(ops, r, j, identifier, channel);
    hide Run, Normalize, StatusAt, Sound, FreshTokens, HeldTokensIssued, UniqueRows, Confirm, Apply, Revokes, CollisionFree, Asks;
    BecomesGranted(Run(ops[..j], hash), ops[j], identifier, channel, hash);
    if ops[j].ConfirmOp? {
      var k := ConfirmedIsNewer(ops[..j], r, ops[j].token, ops[j].now, identifier, channel, hash);
      assert ops[..j][k] == ops[k];
    }
  }

  lemma RevokesPrefix(ops: seq<Op>, r: nat, n: nat, identifier: string, channel: Channel)
    requires Revokes(ops, r, identifier, channel) && r < n <= |ops|
    ensures Revokes(ops[..n], r, identifier, channel)
  {
    hide Normalize;
  }

  lemma {:induction false} StaysKnown(ops: seq<Op>, r: nat, identifier: string, channel: Channel, hash: Token -> Hash)
    requires CollisionFree(hash) && FreshTokens(ops) && Revokes(ops, r, identifier, channel)
    ensures StatusAt(Run(ops, hash), identifier, channel).Some?
  {
    assert ops[..|ops|] == ops;
    RevokedNext(ops, r, identifier, channel, hash);
    KnownStays(ops, r + 1, |ops|, identifier, channel, hash);
  }

  lemma StatusAtEnd(ops: seq<Op>, identifier: string, channel: Channel, hash: Token -> Hash)
    ensures StatusAfter(ops, |ops|, identifier, channel, hash) == StatusAt(Run(ops, hash), identifier, channel)
  {
    assert ops[..|ops|] == ops;
    hide Run, StatusAt;
  }

  lemma RevokeIndex(ops: seq<Op>, r: nat, identifier: string, channel: Channel)
    requires Revokes(ops, r, identifier, channel)
    ensures r < |ops|
  {
    hide Normalize;
  }

  /** A status that is granted after a revocation was granted anew: by a captured grant, or by confirming a double
      opt-in that was asked for after the revocation. An earlier link does not help. */
  lemma {:induction false} GrantedAnew(ops: seq<Op>, r: nat, identifier: string, channel: Channel, hash: Token -> Hash) returns (j: nat)
    requires CollisionFree(hash) && FreshTokens(ops) && Revokes(ops, r, identifier, channel)
    requires StatusAt(Run(ops, hash), identifier, channel) == Some(Granted)
    ensures Regrants(ops, r, j, identifier, channel, hash)
  {
    hide *;
    StatusAtEnd(ops, identifier, channel, hash);
    RevokeIndex(ops, r, identifier, channel);
    RevokedNext(ops, r, identifier, channel, hash);
    j := GrantedBetween(ops, r + 1, |ops|, identifier, channel, hash);
    RegrantingStep(ops, r, j, identifier, channel, hash);
  }

  lemma {:induction false} LowerTwice(s: string)
    ensures Lower(Lower(s)) == Lower(s)
  {
    assert forall i | 0 <= i < |s| :: LowerChar(LowerChar(s[i])) == LowerChar(s[i]);
  }

  /** Normalising cuts the blanks off both ends and writes the letters from A to Z small; nothing else is changed. */
  lemma NormalizeOutcome(s: string) returns (from: nat, to: nat)
    ensures from <= to <= |s| && |Normalize(s)| == to - from
    ensures forall i | 0 <= i < from || to <= i < |s| :: BlankChar(s[i])
    ensures from < to ==> !BlankChar(s[from]) && !BlankChar(s[to - 1])
    ensures forall i | from <= i < to ::
              Normalize(s)[i - from] as int == s[i] as int + if 'A' <= s[i] <= 'Z' then 32 else 0
  {
    from, to := TrimExact(s, BlankChar);
  }

  /** Normalising twice is normalising once, so every lookup addresses the stored form. */
  lemma NormalizeIdempotent(s: string)
    ensures Normalize(Normalize(s)) == Normalize(s)
  {
    var t := Trim(s, BlankChar);
    var from, to := TrimExact(s, BlankChar);
    assert Trimmed(Lower(t), BlankChar);
    TrimmedUnchanged(Lower(t), BlankChar);
    LowerTwice(t);
  }
}
