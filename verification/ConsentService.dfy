/** The consent and suppression services as they run. */
module ConsentService {
  import opened Options
  import opened ConsentStates
  import opened ConsentLedger
  import opened Suppressions

  datatype Permission = Permission(identifier: string, status: Option<Status>, reasons: seq<string>, permitted: bool)

  class Service {
    var records: seq<ConsentRecord>
    var audit: seq<AuditEntry>
    var suppressions: seq<SuppressionEntry>
    var nextId: nat
    const hash: Token -> Hash

    constructor (hash: Token -> Hash)
      ensures this.hash == hash && State() == EMPTY_LEDGER && suppressions == [] && SuppressionsValid()
    {
      this.hash := hash;
      records, audit, suppressions, nextId := [], [], [], 0;
    }

    function State(): Ledger
      reads this`records, this`audit
    {
      Ledger(records, audit)
    }

    ghost predicate SuppressionsValid()
      reads this`suppressions, this`nextId
    {
      && UniqueSuppressions(suppressions)
      && (forall i | 0 <= i < |suppressions| :: suppressions[i].id < nextId && suppressions[i].identifier != "")
    }

    method Capture(input: CaptureInput, contactByEmail: Option<string>, now: nat, token: Token)
      returns (r: Result<(ConsentRecord, Option<(Token, nat)>), Error>)
      modifies this`records, this`audit
      ensures match ConsentLedger.Capture(old(State()), input, contactByEmail, now, token, hash)
              case Ok((after, id)) =>
                && State() == after && id < |records|
                && r == Ok((records[id], if input.action == RequestDoubleOptIn then Some((token, now + TOKEN_TTL)) else None))
              case Err(e) => State() == old(State()) && r == Err(e)
    {
      hide Normalize, Next, GrantedAtAfter;
      var identifier := Normalize(input.identifier);
      if identifier == "" {
        return Err(IdentifierRequired);
      }
      if input.source == "" {
        return Err(SourceRequired);
      }
      var existing := FindRecord(records, identifier, input.channel);
      var current := None;
      var grantedAt := None;
      var contactId := input.contactId;
      if existing.Some? {
        current := Some(records[existing.value].status);
        grantedAt := records[existing.value].grantedAt;
        if contactId.None? {
          contactId := records[existing.value].contactId;
        }
      }
      if contactId.None? && input.channel == Email {
        contactId := contactByEmail;
      }
      var newStatus := Next(current, input.action);
      if newStatus.None? {
        return Err(InvalidTransition);
      }
      var tokenHash, tokenExpiresAt, issued := None, None, None;
      if input.action == RequestDoubleOptIn {
        tokenHash, tokenExpiresAt := Some(hash(token)), Some(now + TOKEN_TTL);
        issued := Some((token, now + TOKEN_TTL));
      }
      var values := ConsentRecord(identifier, input.channel, newStatus.value, input.source, input.evidence, contactId,
                                  tokenHash, tokenExpiresAt, GrantedAtAfter(newStatus.value, current, grantedAt, now),
                                  if newStatus.value == Revoked then Some(now) else None);
      var id := |records|;
      if existing.Some? {
        id := existing.value;
        records := records[id := values];
      } else {
        records := records + [values];
      }
      audit := audit + [AuditEntry(id, input.action, current, newStatus.value, input.source, input.evidence, now)];
      return Ok((values, issued));
    }

    method ConfirmDoubleOptIn(token: Token, now: nat) returns (r: Result<(ConsentRecord, bool), Error>)
      modifies this`records, this`audit
      ensures match ConsentLedger.Confirm(old(State()), token, now, hash)
              case Ok((after, id, already)) => State() == after && id < |records| && r == Ok((records[id], already))
              case Err(e) => State() == old(State()) && r == Err(e)
    {
      var found := FindToken(records, hash(token));
      if found.None? {
        return Err(UnknownToken);
      }
      var id := found.value;
      var record := records[id];
      if record.status == Granted {
        return Ok((record, true));
      }
      if record.status != PendingDoubleOptIn {
        return Err(NoLongerPending);
      }
      if record.tokenExpiresAt.Some? && record.tokenExpiresAt.value < now {
        return Err(TokenExpired);
      }
      records := records[id := record.(status := Granted, grantedAt := Some(now), revokedAt := None)];
      audit := audit + [AuditEntry(id, ConsentStates.ConfirmDoubleOptIn, Some(record.status), Granted, record.source,
                                   Some(CONFIRM_EVIDENCE), now)];
      return Ok((records[id], false));
    }

    /** Adds an entry, or returns the one already there for the identifier and channel. */
    method Suppress(identifier: string, channel: SuppressionChannel, reason: string)
      returns (r: Result<(SuppressionEntry, bool), Error>)
      requires SuppressionsValid()
      modifies this`suppressions, this`nextId
      ensures SuppressionsValid()
      ensures r.Err? <==> Normalize(identifier) == ""
      ensures r.Err? ==> suppressions == old(suppressions)
      ensures r.Ok? ==>
                var (entry, created) := r.value;
                && entry in suppressions && entry.identifier == Normalize(identifier) && entry.channel == channel
                && (created ==> suppressions == old(suppressions) + [entry] && entry.id == old(nextId) && entry.reason == reason)
                && (!created ==> suppressions == old(suppressions))
                && (created <==> forall e | e in old(suppressions) :: e.identifier != Normalize(identifier) || e.channel != channel)
      ensures suppressions == AddEntry(old(suppressions), old(nextId), identifier, channel, reason)
    {
      var normalized := Normalize(identifier);
      hide Normalize;
      if normalized == "" {
        return Err(IdentifierRequired);
      }
      for i := 0 to |suppressions|
        invariant forall j | 0 <= j < i :: suppressions[j].identifier != normalized || suppressions[j].channel != channel
        invariant suppressions == old(suppressions)
      {
        if suppressions[i].identifier == normalized && suppressions[i].channel == channel {
          return Ok((suppressions[i], false));
        }
      }
      var entry := SuppressionEntry(nextId, normalized, channel, reason);
      nextId := nextId + 1;
      suppressions := suppressions + [entry];
      return Ok((entry, true));
    }

    method CheckSuppression(identifier: string, channel: SuppressionChannel) returns (entries: seq<SuppressionEntry>)
      requires SuppressionsValid()
      ensures entries == Covering(suppressions, Normalize(identifier), channel)
    {
      var normalized := Normalize(identifier);
      entries := [];
      if normalized == "" {
        NothingCovered(suppressions, channel);
        return;
      }
      for i := 0 to |suppressions|
        invariant entries == Covering(suppressions[..i], normalized, channel)
      {
        if Covers(suppressions[i], normalized, channel) {
          entries := entries + [suppressions[i]];
        }
        assert suppressions[..i + 1][..i] == suppressions[..i];
      }
      assert suppressions[..|suppressions|] == suppressions;
    }

    method RemoveSuppression(id: nat) returns (found: bool)
      requires SuppressionsValid()
      modifies this`suppressions
      ensures SuppressionsValid()
      ensures found <==> exists e :: e in old(suppressions) && e.id == id
      ensures forall e :: e in suppressions <==> e in old(suppressions) && e.id != id
      ensures suppressions == RemoveEntry(old(suppressions), id)
    {
      var all := suppressions;
      hide UniqueSuppressions, RemoveEntry;
      for i := 0 to |all|
        invariant suppressions == all
        invariant forall j | 0 <= j < i :: all[j].id != id
      {
        if all[i].id == id {
          RemovedAt(all, id, i);
          RemovedExactly(all, i);
          suppressions := all[..i] + all[i + 1..];
          return true;
        }
      }
      RemovedNone(all, id);
      return false;
    }

    method GetConsent(identifier: string, channel: Channel) returns (record: Option<ConsentRecord>)
      ensures var row := FindRecord(records, Normalize(identifier), channel);
              record == if row.Some? then Some(records[row.value]) else None
    {
      var row := FindRecord(records, Normalize(identifier), channel);
      record := None;
      if row.Some? {
        record := Some(records[row.value]);
      }
    }

    method CheckPermission(identifier: string, channel: Channel) returns (p: Permission)
      requires SuppressionsValid()
      ensures p.identifier == Normalize(identifier)
      ensures p.status == StatusOf(State(), FindRecord(records, Normalize(identifier), channel))
      ensures p.reasons == ReasonsOf(Covering(suppressions, Normalize(identifier), One(channel)))
      ensures p.permitted <==>
                p.status == Some(Granted) && forall e | e in suppressions ::
                  e.identifier != Normalize(identifier) || (e.channel != AllChannels && e.channel != One(channel))
    {
      var normalized := Normalize(identifier);
      NormalizeIdempotent(identifier);
      var entries := CheckSuppression(normalized, One(channel));
      hide Normalize;
      var row := FindRecord(records, normalized, channel);
      var status := StatusOf(State(), row);
      assert entries == [] <==> forall e :: e !in entries by {
        if entries != [] { assert entries[0] in entries; }
      }
      p := Permission(normalized, status, ReasonsOf(entries), entries == [] && status == Some(Granted));
      forall e ensures e in entries <==> e in suppressions && Covers(e, normalized, One(channel)) {
        CoveringExact(suppressions, normalized, One(channel), e);
      }
    }
  }
}
