# Verified core of the CRM

This project models the parts of the CRM whose promises reach over many calls, and proves those
promises for every input, every run or every interleaving. The tables of the database are sequences or
maps of rows, the clock is a number handed to each operation, and one service call is one step, except
in the billing stream, where every single command is a step.

What the modules are about:

- **Campaign authorization** (`CanonicalJson`, `JsonGrammar`, `CampaignPayload`, `SendGate`, `CampaignAuthorization`,
  `CampaignOutcomes`, `CampaignService`, `SendSteps`). A campaign's payload is rendered as JSON with sorted keys and hashed; the hash of
  an approved snapshot gates every send. The text is shown to be self-delimiting, so two payloads have
  one hash exactly when they are the same payload, and read by the rules of JSON it says what the payload says. Over every run of requests, decisions, reviews, sends
  and arbitrary edits, a mail that left is the preview of the first variant of the snapshot an owner
  authorized. `SendSteps` takes a send apart into its reads, the provider call and its writes, with anything between
  them: undisturbed they are that one send, disturbed the mail is the preview exactly when the copy read for it looks
  as approved.
  Strings are sequences of UTF-16 code units, escaped as in section 7 of RFC 8259; keys are
  ordered as in section 3.2.3 of RFC 8785.
- **CSV** (`Csv`). The exporter and the character-by-character parser (section 2 of RFC 4180) undo each
  other on an exact domain, decided from the table alone.
- **Account guard** (`DigitRuns`, `CheckDigits`, `AccountGuard`). The scanner for runs of ten linked
  digits finds exactly the runs there are, masking is complete and idempotent, and the Luhn and CLABE
  check digits catch exactly the errors they should.
- **Consent** (`Trimming`, `ConsentStates`, `ConsentLedger`, `Suppressions`, `ConsentService`). Every consent
  row refines its audit log. A double opt-in token speaks for the request that issued it alone, and is dead after
  the next capture on that identifier and channel, exactly then.
- **Outreach** (`Outreach`). Campaigns, consent and suppression in one run: no mail leaves to an address that is
  suppressed or whose consent is revoked or pending. After a revocation none leaves until a step turns the status to
  granted, and an earlier double opt-in link cannot; after a suppression none until a removal lifts it.
- **Federation** (`CircuitBreaker`, `Retry`, `FederationCache`, `FederationClient`, `FederationRuns`). Trace theorems of
  the breaker, the retry budget and delay bound, and what a read through all three returns, told from the history alone.
- **User resolver** (`UserResolver`). The bounded cache agrees with the table it stands in front of.
- **Bounded reads** (`Timeline`, `Pagination`). Cutting three feeds before merging loses nothing;
  following cursors while the table changes neither repeats nor skips a stable row.
- **Billing stream** (`BillingEntries`, `BillingStream`, `BillingRecovery`, `BillingConsumer`). Consumers of one group,
  with handler failures, lost replies and crashes between any two commands: nothing is lost, a handler is called at
  most once, and a pending entry can still be acknowledged exactly while a consumer has it in hand.
- **Grants** (`GrantApprovals`), **payments** (`Reconciliation`), **the reporting feed**
  (`ConvergenceFeed`) and **engagement items** (`EngagementItems`).

Rules and tables of the program are stated a second time in their own words, with the literal values, and shown to be
what the code does: a wrong constant, a swapped field or a missing case contradicts one of these statements.

A service that updates rows in place is a class whose methods are proved equal to a function on the state;
the theorems over runs are about that function.

## Where the code differs from what is said of it

- The repository's README.md:292-300 gives the breaker a 60-second window. The code has none
  (packages/federation/src/core/circuit-breaker.ts:44-58): it counts failures in a row, and so does the model.
- The billing consumer is documented to move an entry to the dead letters after three failed attempts and to
  recover entries of crashed consumers (packages/services/src/events/billing-event-consumer.ts:7-11). The code
  only ever reads new entries and does nothing with claimed ones, so a handler is called at most once for an
  entry. After one failure the entry stays pending for ever, unless it was claimed twice while its handler was
  still running: `FirstFailureStrands`, `StrandedForever`, `FailureIsFinal`, `HandlerCalledOnce`. A crash strands
  exactly what its consumer had in hand, and no claim or new consumer recovers it: `CrashStrandsExactly`,
  `FirstCrashStrands`, `RecoverableExactly`.
- An export is read back unchanged exactly when no header holds a comma, a quote or a newline, no row but the
  last ends in an unquoted field with a trailing carriage return, and the last row is not one empty field:
  `ExportRoundTrip`.
- A federation id that ends in `:stale` is answered from another id's expired value: `SuffixedIdReadsStaleTier`.
  A tenant that holds a NUL can share a resolver key with another pair: `NulTenantsCollide`.
- A page limit of zero reports more rows and gives no cursor: `ZeroLimitStalls`.
- An approval is meant for one mail, because a send moves the campaign out of the sendable states. The status is
  written after the provider was called (packages/services/src/campaigns/campaigns.service.ts:314-331), so it holds
  only while the provider's replies arrive: when a message was taken and its reply lost, the campaign stays sendable
  and the retry mails again. The mails of a campaign are exactly the times it became sendable, less those withdrawn
  unmailed or still open, plus the lost replies: `OneMailPerClearance`, `RetryMailsAgain`, `LostReplyMailsTwice`.
- The gate promises that copy changed after the approval is not sent
  (packages/services/src/campaigns/campaign-authorization-gate.ts:15-30), but the variant is read again after it
  (packages/services/src/campaigns/campaigns.service.ts:366-371). Copy edited in between is mailed
  (`EditInFlightIsMailed`), and two sends that pass the gate together both mail (`RacingSendsMailTwice`). What holds in
  every interleaving is `MailedCopyExactly` and `OneMailPerPass`; the other theorems about sends are about sends that
  are not disturbed, which `AloneIsSend` justifies.
- Grant compliance is looked at when approving and not when submitting. A submission meets the checks exactly when
  none were written since the approval, or the last ones written were compliant: `SubmissionCompliantExactly`; a
  run that fails it is `SubmittedThoughBlacklisted`.
- The two payment rules differ where the amount received is zero and nothing is due, or where it is negative and
  short of the due. The first needs a due of zero or less; the second cannot occur while
  packages/db/src/schema/payment-evidence.ts:112 keeps amounts positive: `RulesAgreeExactly`, `RulesAgree`.

## Model

| member | source | states |
|---|---|---|
| CanonicalJson.QuoteUnique | packages/services/src/campaigns/campaign-authorization.service.ts:91-94 | a quoted string is self-delimiting: whatever follows, quote and rest can be told apart in one way |
| CanonicalJson.StringifyUnique | packages/services/src/campaigns/campaign-authorization.service.ts:91-102 | texts of two trees, each before a separator, agree only when the trees mean the same value and the rests agree |
| CanonicalJson.SameMeaningSameText | packages/services/src/campaigns/campaign-authorization.service.ts:91-102 | trees equal up to the order of object keys, at any depth, have one text |
| CanonicalJson.SortByKey | packages/services/src/campaigns/campaign-authorization.service.ts:96-98 | sorting the members of an object keeps every member, as often as it occurs |
| CanonicalJson.SortByKeyAscending | packages/services/src/campaigns/campaign-authorization.service.ts:96-98 | the members of an object are printed in strictly rising code-unit order of their keys |
| CanonicalJson.KeyLessDecides | packages/services/src/campaigns/campaign-authorization.service.ts:96-98 | keys are compared by the first code unit in which they differ, a prefix coming first |
| CanonicalJson.CanonicalText | packages/services/src/campaigns/campaign-authorization.service.ts:91-102 | two trees have one canonical text if and only if they are equal up to key order |
| CanonicalJson.KeyOrderIsInvisible | packages/services/src/campaigns/campaign-authorization.service.ts:95-101 | permuting the entries of an object never changes its text |
| CanonicalJson.StringifyWellFormed | packages/services/src/campaigns/campaign-authorization.service.ts:91-106 | the text never holds a lone surrogate, so its UTF-8 encoding loses nothing |
| CanonicalJson.Utf8Injective | packages/services/src/campaigns/campaign-authorization.service.ts:104-106 | different well-formed texts have different UTF-8 bytes |
| CanonicalJson.CanonicalBytesExact | packages/services/src/campaigns/campaign-authorization.service.ts:91-106 | the bytes handed to the digest are equal exactly when the trees are equal up to key order |
| JsonGrammar.QuoteRead | packages/services/src/campaigns/campaign-authorization.service.ts:91-94 | a quoted string, unescaped by RFC 8259, is the string |
| JsonGrammar.TextSaysTree | packages/services/src/campaigns/campaign-authorization.service.ts:91-102 | the canonical text is JSON and says the tree: undefined members left out, members in the order of their keys, and null for what JSON cannot say |
| JsonGrammar.Utf8Encodes | packages/services/src/campaigns/campaign-authorization.service.ts:104-106 | each code point is encoded in its shortest UTF-8 form |
| CampaignPayload.PayloadJsonExact | packages/services/src/campaigns/campaign-authorization.service.ts:118-150 | no field of a payload is lost in its JSON: equal JSON means equal payloads |
| CampaignPayload.PayloadShows | packages/services/src/campaigns/campaign-authorization.service.ts:118-150 | the payload of a campaign holds its own name, product, channel, sender, dates, audience, type, guardrails, privacy notice and the copy of each variant, and it is the only one that does |
| CampaignPayload.PayloadIdentityNames | packages/services/src/campaigns/campaign-authorization.service.ts:126-129 | in the JSON the identifier, name, product and channel stand under their names |
| CampaignPayload.PayloadSenderNames | packages/services/src/campaigns/campaign-authorization.service.ts:130-137 | so do sender, privacy notice, audience and type |
| CampaignPayload.PayloadContentNames | packages/services/src/campaigns/campaign-authorization.service.ts:132-149 | so do schedule, guardrails and variants |
| CampaignPayload.ScheduleNames | packages/services/src/campaigns/campaign-authorization.service.ts:133-136 | and the start and end date in the schedule |
| CampaignPayload.VariantNames | packages/services/src/campaigns/campaign-authorization.service.ts:140-143 | and the identity, language, subject and preheader of a variant |
| CampaignPayload.VariantContentNames | packages/services/src/campaigns/campaign-authorization.service.ts:144-147 | and its body, call to action, link and claim keys |
| CampaignPayload.HashExact | packages/services/src/campaigns/campaign-authorization.service.ts:104-106 | with a collision-free digest, two payloads have one hash exactly when they are equal, so any edit of an approved field shows |
| CampaignPayload.HashingInjective | packages/services/src/campaigns/campaign-authorization.service.ts:104-106 | a collision-free digest makes the canonical hash tell all payloads apart, which is all the results about the gate ask of a hash |
| CampaignPayload.LoadVariantsSorts | packages/services/src/campaigns/campaign-authorization.service.ts:153-163 | the reviewed variants are exactly the campaign's rows, by creation time and then id |
| CampaignPayload.FirstVariantIsReviewedFirst | packages/services/src/campaigns/campaigns.service.ts:373-385 | the one row the dispatch query takes is the first of the rows that were reviewed and hashed |
| SendGate.EvaluateConsent | packages/services/src/campaigns/campaign-send-gate.ts:49-88 | the reasons pushed step by step are exactly those that apply, in reporting order |
| SendGate.EvaluateContactEligibility | packages/services/src/campaigns/campaign-send-gate.ts:49-101 | eligible means no reason applies; all reasons that apply are reported in order |
| SendGate.EligibleExactly | packages/services/src/campaigns/campaign-send-gate.ts:49-101 | a contact is eligible if and only if consented, not suppressed, not deleted, not unsubscribed and reachable on the channel |
| CampaignOutcomes.ReasonsOutcome | packages/services/src/campaigns/campaign-send-gate.ts:49-88 | each reason is given exactly where its rule applies, once, in the order reported |
| CampaignOutcomes.EligibilityOutcome | packages/services/src/campaigns/campaign-send-gate.ts:25-101 | who is eligible, said of the contact and the consent lookup of the campaign's own channel, in any case of its letters |
| CampaignAuthorization.SupersededSound | packages/services/src/campaigns/campaign-authorization.service.ts:301-332 | superseding leaves no pending row of the campaign, changes no frozen field and no decided row, and keeps every stored hash its snapshot's |
| CampaignAuthorization.RequestSound | packages/services/src/campaigns/campaign-authorization.service.ts:301-332 | a request keeps every stored hash equal to its snapshot's, at most one pending row per campaign, and all frozen rows |
| CampaignAuthorization.DecideSound | packages/services/src/campaigns/campaign-authorization.service.ts:421-470 | a decision keeps the same, and changes only a pending row |
| CampaignAuthorization.RejectionNeedsNote | packages/services/src/campaigns/campaign-authorization.service.ts:431-434 | a pending request is rejected exactly when the note, trimmed, is not empty |
| CampaignAuthorization.GaAllowedExactly | packages/services/src/campaigns/campaigns.service.ts:18-73 | the readiness guard is the commercial policy, in both directions |
| CampaignOutcomes.RequestOutcome | packages/services/src/campaigns/campaign-authorization.service.ts:301-332 | a request supersedes the waiting rows of its campaign and adds a waiting row that shows the campaign as it is; it is refused for a missing campaign and one without variants only |
| CampaignOutcomes.DecideOutcome | packages/services/src/campaigns/campaign-authorization.service.ts:421-470 | each refusal of a decision in its order, and what an accepted one writes; only a rejection parks the campaign |
| CampaignOutcomes.ReviewOutcome | packages/services/src/campaigns/campaigns.service.ts:222-250 | approval is refused exactly where the policy forbids it, and queues the request where there is something to review |
| CampaignOutcomes.ClearOutcome | packages/services/src/campaigns/campaigns.service.ts:263-279 | each refusal before the contact is looked at, in its order and nowhere else |
| CampaignOutcomes.SendOutcome | packages/services/src/campaigns/campaigns.service.ts:281-355 | status, signal and outbox after each outcome of a send |
| CampaignOutcomes.MailOutcome | packages/services/src/campaigns/campaigns.service.ts:357-422 | the mail goes to the contact's address, with its unsubscribe link, under the authorization of the gate |
| CampaignOutcomes.AuthorizedIsSent | packages/services/src/campaigns/campaigns.service.ts:263-422 | an import that is approved and ready, requested and authorized as it is, is mailed to every contact its channel may reach |
| CampaignAuthorization.ReviewSound | packages/services/src/campaigns/campaigns.service.ts:222-250 | staff review keeps the same, with the request it queues |
| CampaignAuthorization.SelectAuthorized | packages/services/src/campaigns/campaign-authorization-gate.ts:31-48 | the gate looks at an authorized row of this campaign with no later decision, and finds one if there is any |
| CampaignAuthorization.GateExact | packages/services/src/campaigns/campaign-authorization-gate.ts:31-66 | the gate opens exactly when the live campaign is, field by field, the snapshot of the authorization it found |
| CampaignAuthorization.ComposedIsPreviewed | packages/services/src/campaigns/campaigns.service.ts:357-422 | behind the gate the message exists and is, unsubscribe link aside, the preview of the snapshot's first variant |
| CampaignAuthorization.SendSound | packages/services/src/campaigns/campaigns.service.ts:263-355 | a send keeps the invariant and changes no authorization |
| CampaignAuthorization.PipelineErrorsUnreachable | packages/services/src/campaigns/campaigns.service.ts:357-395 | in every run the no-variant and no-address errors behind the gate never occur |
| CampaignAuthorization.SentIsWhatWasAuthorized | packages/services/src/campaigns/campaigns.service.ts:263-422 | over every run each mail has subject, body, preheader, CTA, CTA URL, privacy URL and sender of the snapshot in an authorized row |
| CampaignAuthorization.MailLeavesOnlyThroughTheGate | packages/services/src/campaigns/campaigns.service.ts:263-355 | a mail leaves only when the campaign is approved, meets the commercial policy, shows in every field what its latest authorization froze, and the contact is eligible |
| CampaignAuthorization.DecisionsAreFinal | packages/services/src/campaigns/campaign-authorization.service.ts:421-470 | whatever follows, a row keeps its snapshot and hash, and a decided or superseded row never changes |
| CampaignAuthorization.OneMailPerClearance | packages/services/src/campaigns/campaigns.service.ts:263-355 | in every run the mails of a campaign are the steps, other than sends, that made it sendable, less those after which it was withdrawn unmailed and the one still open, plus the mails whose reply was lost |
| CampaignAuthorization.RetryMailsAgain | packages/services/src/campaigns/campaigns.service.ts:314-331 | wherever a send would mail, a lost reply leaves an error and the campaign as it was, and the next send mails the same message again |
| CampaignAuthorization.LostReplyMailsTwice | packages/services/src/campaigns/campaigns.service.ts:314-331 | a run from the empty store in which one approval mails twice |
| SendSteps.AloneIsSend | packages/services/src/campaigns/campaigns.service.ts:263-355 | undisturbed, the reads, the provider call and the writes of a send have together the effect of the one step, whatever its outcome |
| SendSteps.NextSound | packages/services/src/campaigns/campaigns.service.ts:263-422 | every step of every send under way, and every edit between, keeps what is known of the sends and the mails |
| SendSteps.MailedCopyExactly | packages/services/src/campaigns/campaigns.service.ts:357-422 | in every interleaving a mail names an authorization of its campaign and shows its privacy notice; it is the preview of the snapshot exactly when sender and first variant at delivery look as approved, and so whenever no copy was edited since the gate |
| SendSteps.OneMailPerPass | packages/services/src/campaigns/campaigns.service.ts:263-355 | in every interleaving the mails of a campaign and the sends past the gate are at most the times the gate was passed |
| SendSteps.RacingSendsMailTwice | packages/services/src/campaigns/campaigns.service.ts:263-355 | two sends that both pass the gate before either marks the campaign sent both mail |
| SendSteps.EditInFlightIsMailed | packages/services/src/campaigns/campaigns.service.ts:366-371 | copy edited between the gate and the dispatch query is mailed under the earlier authorization |
| CampaignService.Service.Request | packages/services/src/campaigns/campaign-authorization.service.ts:301-332 | the row-by-row method refines the request step and returns the new row |
| CampaignService.Service.Preview | packages/services/src/campaigns/campaign-authorization.service.ts:391-419 | previews are the snapshot's variants, and the stale flag is true exactly when the live payload differs |
| CampaignService.Service.Decide | packages/services/src/campaigns/campaign-authorization.service.ts:421-470 | the method refines the decision step, with every refusal |
| CampaignService.Service.Review | packages/services/src/campaigns/campaigns.service.ts:222-250 | the method refines the review step |
| CampaignService.Service.SelectAuthorized | packages/services/src/campaigns/campaign-authorization-gate.ts:31-48 | the scan finds a latest authorized row, or there is none |
| CampaignService.Service.AssertSendAuthorized | packages/services/src/campaigns/campaign-authorization-gate.ts:31-66 | the method is the gate |
| CampaignService.Service.CheckEligibility | packages/services/src/campaigns/campaign-send-gate.ts:103-144 | for the contact and leads it is given, the consent record and suppression entries are looked up in the tables and the rules applied, or the contact is missing |
| CampaignService.Service.LookUp | packages/services/src/campaigns/campaign-send-gate.ts:129-141 | the gate input is the ledger's status and the suppression reasons of the normalised address |
| CampaignService.Service.ClearToSend | packages/services/src/campaigns/campaigns.service.ts:263-279 | the checks before the contact, in order, and then the gate |
| CampaignService.Service.DispatchCampaignEmail | packages/services/src/campaigns/campaigns.service.ts:357-422 | the outbox grows by the composed message exactly when the provider takes it, and the call fails when it refuses or its reply is lost |
| CampaignService.Service.AttemptSend | packages/services/src/campaigns/campaigns.service.ts:263-355 | the method refines the send step with the recipient as the consent and suppression tables describe it, for some tie among decisions taken at one instant |
| Outreach.CampaignsAreARun | packages/services/src/campaigns/campaigns.service.ts:263-355 | the campaign store of a combined run is that of a campaign run, so all results about those hold with consent and suppression changing alongside |
| Outreach.LedgerIsARun | packages/services/src/consent/consent.service.ts:118-248 | the consent ledger of a combined run is that of its consent operations alone |
| Outreach.EligibleMayReceive | packages/services/src/campaigns/campaign-send-gate.ts:49-144 | an eligible contact of an email campaign has an address that is neither suppressed nor revoked nor pending, and without a record has the old consent flag |
| Outreach.MailRespectsConsent | packages/services/src/campaigns/campaign-send-gate.ts:103-144 | over every run each mail left in a send before which its address was neither suppressed, for mail or altogether, nor revoked nor pending |
| Outreach.NoMailAfterRevocation | packages/services/src/consent/consent.service.ts:118-248 | after a revocation that names identifier and source, a mail to that address is preceded by a later step that turns the status from not granted to granted: a captured grant, or a confirmation with a token asked for after the revocation |
| Outreach.NoMailAfterSuppression | packages/services/src/consent/suppression.service.ts:42-102 | after an address is suppressed a mail to it is preceded by a removal before which the address was suppressed and after which it is not |
| Csv.ParseCsvText | apps/web/src/lib/csv-import.ts:29-78 | the index loop with its skipped characters is the scanner |
| Csv.ScannerKeeps | apps/web/src/lib/csv-import.ts:29-78 | finished rows are never changed, and a partial row and field survive as prefixes |
| Csv.ScanRowsNotEmpty | apps/web/src/lib/csv-import.ts:58-76 | every row the parser returns has a field |
| Csv.TableRoundTrip | apps/web/src/lib/csv-import.ts:29-78 | a printed table is read back unchanged if and only if no non-final row ends in an unquoted trailing return and the last row is not one empty field |
| Csv.CrlfRoundTrip | apps/web/src/lib/csv-import.ts:29-78 | a table printed with CR LF breaks is read back, returns in its fields and all, if and only if its last row is not one empty field |
| Csv.BadHeaderShows | apps/web/src/lib/csv-export.ts:7 | a header holding a comma, a quote or a newline is never read back, whatever the data |
| Csv.ExportRoundTrip | apps/web/src/lib/csv-export.ts:6-20 | an export of rows as wide as the header is read back unchanged exactly on the stated domain |
| Csv.ExportedCells | apps/web/src/lib/csv-export.ts:6-20 | the exported table holds the header and each value, the empty text for a missing one |
| DigitRuns.ScannerExact | packages/services/src/payment-evidence/account-guard.ts:17-37 | the pattern matches exactly when some slice of the text is ten or more linked digits |
| DigitRuns.MaskedHasNoLongRun | packages/services/src/payment-evidence/account-guard.ts:39-41 | no long run survives masking |
| DigitRuns.MaskingIsComplete | packages/services/src/payment-evidence/account-guard.ts:17-41 | masked text holds no long run; a text is unchanged exactly when it had none; masking twice is masking once |
| DigitRuns.FirstRunMasked | packages/services/src/payment-evidence/account-guard.ts:39-41 | all before the first run is kept, and the run becomes the mask and its last four digits |
| DigitRuns.PrefixKept | packages/services/src/payment-evidence/account-guard.ts:39-41 | characters at which no run starts are kept in place |
| CheckDigits.IsLuhnValid | packages/services/src/payment-evidence/account-guard.ts:43-55 | the right-to-left loop computes the Luhn sum and accepts multiples of ten |
| CheckDigits.LuhnByPairs | packages/services/src/payment-evidence/account-guard.ts:43-55 | from the right the digits count once and twice in turn, of a doubled digit both figures |
| CheckDigits.LuhnCheckDigit | packages/services/src/payment-evidence/account-guard.ts:43-55 | every payload has exactly one check digit, given by the sum |
| CheckDigits.LuhnCatchesOneDigit | packages/services/src/payment-evidence/account-guard.ts:43-55 | any one changed digit is rejected, at any length |
| CheckDigits.LuhnSwap | packages/services/src/payment-evidence/account-guard.ts:43-55 | swapping neighbours is accepted exactly when they are equal or 0 and 9 |
| CheckDigits.IsClabe | packages/services/src/payment-evidence/account-guard.ts:57-63 | the check-digit test is the 3-7-1 weighted sum of all 18 digits being 0 mod 10 |
| CheckDigits.WeightsInTurn | packages/services/src/payment-evidence/account-guard.ts:57-63 | three digits in turn weigh three, seven and one |
| CheckDigits.ClabeCheckDigit | packages/services/src/payment-evidence/account-guard.ts:57-63 | seventeen digits have exactly one check digit |
| CheckDigits.ClabeCatchesOneDigit | packages/services/src/payment-evidence/account-guard.ts:57-63 | any one changed digit is rejected |
| CheckDigits.ClabeSwap | packages/services/src/payment-evidence/account-guard.ts:57-63 | swapping neighbours is accepted exactly when they are equal or differ by 5 |
| AccountGuard.CheckCardOrClabe | packages/services/src/payment-evidence/account-guard.ts:65-75 | spaces and hyphens aside: an 18-digit CLABE, or 13 to 19 other digits that pass Luhn |
| AccountGuard.WithoutSeparatorsOf | packages/services/src/payment-evidence/account-guard.ts:67 | spaces and hyphens are dropped and nothing else |
| AccountGuard.CardLengths | packages/services/src/payment-evidence/account-guard.ts:65-75 | eighteen digits are held to the CLABE rule, 13 to 17 and 19 to Luhn, other lengths to none |
| AccountGuard.CardIsRefused | packages/services/src/payment-evidence/account-guard.ts:83-104 | a sixteen-digit card number in either identifier field, grouped or not, is a violation |
| AccountGuard.FindAccountViolations | packages/services/src/payment-evidence/account-guard.ts:83-104 | the violations are exactly the fields that break their rule, each with its reason, listed field group by field group |
| AccountGuard.ViolationsExact | packages/services/src/payment-evidence/account-guard.ts:83-104 | a violation is listed if and only if its field breaks its rule |
| AccountGuard.MaskedTextPasses | packages/services/src/payment-evidence/account-guard.ts:19-41 | masked free text never violates; unmasked text violates exactly when it holds a long run |
| Trimming.TrimExact | packages/services/src/consent/consent-state-machine.ts:89-91 | trimming cuts blanks off both ends and nothing else, and leaves none there |
| Trimming.AsciiBlanks | packages/services/src/consent/consent-state-machine.ts:89-91 | which of the first 128 characters are blanks |
| ConsentLedger.NormalizeIdempotent | packages/services/src/consent/consent-state-machine.ts:89-91 | normalising an identifier twice is normalising it once |
| ConsentLedger.NormalizeOutcome | packages/services/src/consent/consent-state-machine.ts:89-91 | normalising cuts the blanks at both ends, makes A to Z small, and changes nothing else |
| ConsentLedger.CaptureOutcome | packages/services/src/consent/consent.service.ts:118-198 | for every ledger: a revocation and a grant are always accepted, a request exactly where consent is not granted, a confirmation exactly where it is pending; the row then has that status, and row and log entry hold what was asked |
| ConsentLedger.RefinementStep | packages/services/src/consent/consent.service.ts:70-84 | a row written with its audit entry and the resolved timestamps still shows what its log says |
| ConsentLedger.CaptureSound | packages/services/src/consent/consent.service.ts:118-198 | a capture keeps one row per identifier and channel, live tokens on live rows only, and rows that refine the log |
| ConsentLedger.ConfirmSound | packages/services/src/consent/consent.service.ts:200-248 | a confirmation keeps the same and never meets a row that is neither granted nor pending |
| ConsentLedger.RunSound | packages/services/src/consent/consent.service.ts:118-248 | in every run with fresh tokens the invariant holds, and each held token was issued for the identifier and channel of the row that holds it, with the window of its request |
| ConsentLedger.RowsRefineTheLog | packages/services/src/consent/consent.service.ts:118-248 | one row per normalised identifier and channel; its entries chain by the table, its status is their replay, and its dates are those of the right entries |
| ConsentLedger.NoLongerPendingUnreachable | packages/services/src/consent/consent.service.ts:215-219 | the refusal for a row no longer pending is never returned |
| ConsentLedger.HolderIsIssuer | packages/services/src/consent/consent.service.ts:50-68 | a row that holds a token holds that of the one request which issued it |
| ConsentLedger.RecaptureEndsToken | packages/services/src/consent/consent.service.ts:148-160 | after an accepted revoke, direct grant or new request on an identifier and channel, no earlier token of theirs confirms, whatever follows |
| ConsentLedger.TokenFate | packages/services/src/consent/consent.service.ts:200-248 | an issued token is unknown exactly after such a capture; until then it confirms its row, unless seven days have passed with the row pending |
| ConsentLedger.ConfirmGrantsIssuer | packages/services/src/consent/consent.service.ts:200-248 | in any run a confirmation names the row of the issuing request's identifier and channel, and a first one grants only it, within seven days of that request |
| ConsentService.Service.Capture | packages/services/src/consent/consent.service.ts:118-198 | the method refines the capture step and returns the row, and a token only for a request |
| ConsentService.Service.ConfirmDoubleOptIn | packages/services/src/consent/consent.service.ts:200-248 | the method refines the confirmation step |
| ConsentService.Service.CheckPermission | packages/services/src/consent/consent.service.ts:256-273 | permitted means granted and covered by no suppression entry |
| ConsentService.Service.Suppress | packages/services/src/consent/suppression.service.ts:42-82 | one entry per identifier and channel: a second call returns the entry already there |
| ConsentService.Service.CheckSuppression | packages/services/src/consent/suppression.service.ts:84-102 | the entries for this channel and for all channels, and no others |
| ConsentService.Service.RemoveSuppression | packages/services/src/consent/suppression.service.ts:142-148 | exactly the entry with the id goes |
| Suppressions.CoveringExact | packages/services/src/consent/suppression.service.ts:84-102 | an entry is found exactly when it is in the table and covers the identifier and channel |
| ConsentService.Service.GetConsent | packages/services/src/consent/consent.service.ts:94-102 | the row of the normalised identifier and channel, if any |
| CircuitBreaker.Service.GetState | packages/federation/src/core/circuit-breaker.ts:20-29 | reading the state moves an open breaker to half-open once its timeout has passed |
| CircuitBreaker.Service.IsCallPermitted | packages/federation/src/core/circuit-breaker.ts:31-34 | permitted unless still open |
| CircuitBreaker.Service.RecordSuccess | packages/federation/src/core/circuit-breaker.ts:36-47 | the whole new state after a success |
| CircuitBreaker.Service.RecordFailure | packages/federation/src/core/circuit-breaker.ts:49-58 | the whole new state after a failure |
| CircuitBreaker.Service.Reset | packages/federation/src/core/circuit-breaker.ts:60-65 | back to the initial state |
| CircuitBreaker.CountersExplainState | packages/federation/src/core/circuit-breaker.ts:20-65 | closed: the failure count is the failures since the last success or reset, below the threshold; otherwise at or above it |
| CircuitBreaker.HalfOpenHistory | packages/federation/src/core/circuit-breaker.ts:20-58 | a half-open breaker was opened, waited out its timeout, and has seen only the counted successes since |
| CircuitBreaker.ClosingTakesSuccesses | packages/federation/src/core/circuit-breaker.ts:36-47 | without a reset, closing takes the threshold of successes and no failure since half-open |
| CircuitBreaker.OpenHoldsForTimeout | packages/federation/src/core/circuit-breaker.ts:20-34 | no call is permitted within the timeout after the failure that left the breaker open |
| CircuitBreaker.OpensAtThreshold | packages/federation/src/core/circuit-breaker.ts:49-58 | a closed breaker opens exactly at the failure that completes the threshold in a row |
| CircuitBreaker.Recovers | packages/federation/src/core/circuit-breaker.ts:20-47 | once the timeout has passed an open breaker lets calls through, and the configured successes close it |
| Retry.WithRetry | packages/federation/src/core/retry.ts:38-56 | outcome, number of calls and time waited of the loop |
| Retry.RetryContract | packages/federation/src/core/retry.ts:38-56 | at most one call more than the retries; all but the last failed retryably; the first success is returned or the last error thrown |
| Retry.TriesAgain | packages/federation/src/core/retry.ts:20-56 | there is another try exactly while the budget lasts and every try so far failed for a network fault, status 408 or 429, or a server error |
| Retry.FinalThrowReached | packages/federation/src/core/retry.ts:38-56 | the throw after the loop is reached exactly when the budget is negative |
| Retry.DelayBound | packages/federation/src/core/retry.ts:10-18 | one delay is the capped backoff stretched by its share of the jitter, and lies between the backoff and its largest stretch |
| Retry.BackoffDoubles | packages/federation/src/core/retry.ts:10-18 | the wait starts at the base delay and doubles until it reaches the limit |
| Retry.TotalDelayBound | packages/federation/src/core/retry.ts:10-56 | the waits total at most (1 + jitter) times the smaller of the geometric sum and n full delays |
| FederationCache.TiersCollide | packages/federation/src/core/cache-manager.ts:25-31 | a fresh key is another id's stale key exactly when the id is that id with the suffix |
| FederationCache.KeysApart | packages/federation/src/core/cache-manager.ts:25-31 | ids without the suffix never share a key, across tiers or within one |
| FederationCache.TenantsApart | packages/federation/src/core/cache-manager.ts:25-27 | tenants, and the kinds of record of a tenant, never share a key while their names hold no colon |
| FederationCache.CacheManager.Get | packages/federation/src/core/cache-manager.ts:37-44 | the fresh value, unless expired |
| FederationCache.CacheManager.Set | packages/federation/src/core/cache-manager.ts:46-55 | both tiers get the value, the stale one for five times as long and at least 900 seconds |
| FederationCache.CacheManager.Invalidate | packages/federation/src/core/cache-manager.ts:57-61 | both tiers of the id go and nothing else |
| FederationCache.CacheManager.InvalidatePattern | packages/federation/src/core/cache-manager.ts:63-69 | both tiers of every id under the prefix go and nothing outside it |
| FederationCache.CacheManager.GetStale | packages/federation/src/core/cache-manager.ts:71-78 | the stale value, unless expired |
| FederationClient.Service.Fetch | packages/federation/src/core/federation-client.ts:25-94 | the composed method refines the read step; the provider is called only on a miss with the breaker permitting |
| FederationClient.Service.Mutate | packages/federation/src/core/federation-client.ts:104-139 | the composed method refines the write step |
| FederationClient.RunSound | packages/federation/src/core/federation-client.ts:25-139 | in every run each slot holds the last value stored for its id, not invalidated since |
| FederationClient.FetchFreshness | packages/federation/src/core/federation-client.ts:25-94 | ok data is new or younger than the ttl; degraded data was stored for this id, not invalidated since, and is younger than the stale ttl |
| FederationClient.MutateInvalidates | packages/federation/src/core/federation-client.ts:104-139 | a successful supported write invalidates its id |
| FederationClient.NoStaleReadAfterWrite | packages/federation/src/core/federation-client.ts:104-139 | after a successful write nothing stored before it is returned again, whatever happens in between |
| FederationClient.SuffixedIdReadsStaleTier | packages/federation/src/core/cache-manager.ts:25-31 | an id ending in the suffix is answered with another id's expired value as if fresh |
| FederationClient.OpenBreakerShields | packages/federation/src/core/federation-client.ts:38-52 | with the breaker open the answer does not depend on the provider and nothing changes |
| FederationRuns.BreakerSeesTheTrace | packages/federation/src/core/federation-client.ts:25-139 | in every run the breaker is in the state of the trace of misses and writes it let through, as they ended |
| FederationRuns.FailuresShield | packages/federation/src/core/federation-client.ts:38-94 | with as many failures in a row as the threshold and the last within the timeout, no read reaches the provider or changes the client |
| FederationRuns.ThresholdReadsShield | packages/federation/src/core/federation-client.ts:38-94 | so after threshold failed reads one after the other |
| FederationRuns.RunShowsLog | packages/federation/src/core/federation-client.ts:25-139 | in every run both tiers hold exactly what was last stored for the id and not invalidated since, with their lifetimes |
| FederationRuns.FetchOutcome | packages/federation/src/core/federation-client.ts:25-94 | the whole answer of every read of every run, from the log, the trace and the provider |
| FederationRuns.MutateOutcome | packages/federation/src/core/federation-client.ts:104-139 | the whole answer of every write |
| UserResolver.Resolver.Resolve | packages/services/src/identity/crm-user-resolver.ts:42-56 | the method refines the resolve step |
| UserResolver.ResolveExactly | packages/services/src/identity/crm-user-resolver.ts:42-56 | no subject, no answer; a slot still good answers and nothing changes; else the table answers and its answer is kept for the lifetime |
| UserResolver.StoreKeeps | packages/services/src/identity/crm-user-resolver.ts:70-77 | nothing is evicted while there is room, and a full cache gives up its oldest slot alone |
| UserResolver.Resolver.StoreEntry | packages/services/src/identity/crm-user-resolver.ts:70-77 | delete, evict the first entry if full, append |
| UserResolver.Resolver.Invalidate | packages/services/src/identity/crm-user-resolver.ts:58-60 | exactly the pair's entry goes |
| UserResolver.CacheKeyInjective | packages/services/src/identity/crm-user-resolver.ts:80-82 | distinct pairs of NUL-free tenants never share a key |
| UserResolver.NulTenantsCollide | packages/services/src/identity/crm-user-resolver.ts:80-82 | with a NUL in the tenant two pairs do |
| UserResolver.EvictionDropsEarliest | packages/services/src/identity/crm-user-resolver.ts:70-77 | eviction removes the entry that expires first and no other |
| UserResolver.CacheStaysBoundedAndOrdered | packages/services/src/identity/crm-user-resolver.ts:42-77 | in every run the size is at most max(1, maxEntries) and the map is ordered by expiry |
| UserResolver.AnswersAgreeWithTable | packages/services/src/identity/crm-user-resolver.ts:42-56 | every answer is the table's now, or its last answer for this very pair less than the ttl ago and not dropped since |
| Timeline.SortNewestFirst | packages/services/src/engagements/engagements.service.ts:465 | newest first, same entries |
| Timeline.CutMergeCut | packages/services/src/engagements/engagements.service.ts:391-467 | cutting each feed, merging and cutting again shows min(limit, total) newest entries of the untruncated union |
| Timeline.GetTimeline | packages/services/src/engagements/engagements.service.ts:391-467 | the method returns that list, without transitions when there is no opportunity, and fails without an engagement |
| Pagination.List | packages/services/src/contacts/contacts.service.ts:9-36 | the method is the page function |
| Pagination.HoldsExactly | packages/services/src/contacts/contacts.service.ts:9-22 | what the query matches: rows not deleted, after the cursor, and of the owner asked for |
| Pagination.PageExact | packages/services/src/contacts/contacts.service.ts:9-36 | a page is the next matching ids in order, none skipped up to the cursor it gives |
| Pagination.WalkAscends | packages/services/src/contacts/contacts.service.ts:9-36 | while the table changes between pages, the walk goes strictly up: no id twice |
| Pagination.WalkMissesNothing | packages/services/src/contacts/contacts.service.ts:9-36 | a finished walk returns every row present throughout |
| Pagination.WalkInventsNothing | packages/services/src/contacts/contacts.service.ts:9-36 | every id returned was in one of the tables the walk read |
| Pagination.FixedWalkEnumerates | packages/services/src/contacts/contacts.service.ts:9-36 | on a fixed table the walk ends and returns exactly the matching ids in order |
| Pagination.ZeroLimitStalls | packages/services/src/contacts/contacts.service.ts:29-35 | a limit of zero promises more and gives no cursor |
| BillingEntries.ParseEntry | packages/services/src/events/billing-event-consumer.ts:205-226 | the event has, for each of the five keys, the value of the last pair with it; there is none exactly when a payload is given that is not JSON |
| BillingEntries.DroppedExactly | packages/services/src/events/billing-event-consumer.ts:116-128 | an entry is dropped exactly when its payload does not read or its last event type has no handler |
| BillingEntries.LastPairWins | packages/services/src/events/billing-event-consumer.ts:206-212 | of several pairs with one key the last counts |
| BillingStream.NextSound | packages/services/src/events/billing-event-consumer.ts:98-203 | every command of every consumer, and every crash, keeps the protocol's invariant |
| BillingStream.InspectDecides | packages/services/src/events/billing-event-consumer.ts:116-128 | an inspected entry goes to its handler exactly when it has one |
| BillingStream.ReadHandsOut | packages/services/src/events/billing-event-consumer.ts:98-114 | a read hands out the next entries in order, ten at most, delivered once |
| BillingStream.ClaimCounts | packages/services/src/events/billing-event-consumer.ts:146-164 | a claim takes at most fifty entries idle for a minute, and counts them once more |
| BillingStream.AckTakesEffect | packages/services/src/events/billing-event-consumer.ts:116-134 | an acknowledgment takes effect unless refused, reply or not, and where the consumer goes on |
| BillingStream.CheckTakesEffect | packages/services/src/events/billing-event-consumer.ts:166-180 | a failed entry is buried from its third delivery on, and given up when the count cannot be read |
| BillingStream.BurialTakesEffect | packages/services/src/events/billing-event-consumer.ts:180-203 | a dead letter is added unless refused, and acknowledged only where the reply arrives |
| BillingStream.NothingIsLost | packages/services/src/events/billing-event-consumer.ts:98-226 | in every interleaving an entry is exactly one of not handed out, pending, acknowledged; and acknowledged means handled, dropped by rule, or in the dead letters |
| BillingStream.HandlerCalledOnce | packages/services/src/events/billing-event-consumer.ts:98-203 | a handler runs at most once for an entry; a dead letter is unique, has a count of at least three, and is written two stale periods or more after delivery |
| BillingStream.StrandedForever | packages/services/src/events/billing-event-consumer.ts:146-164 | a pending entry in no consumer's hands stays so in every continuation, never handled, acknowledged or buried |
| BillingStream.FailureIsFinal | packages/services/src/events/billing-event-consumer.ts:166-203 | a failed entry is stranded exactly when its count is below the limit or the count cannot be read |
| BillingStream.FirstFailureStrands | packages/services/src/events/billing-event-consumer.ts:130-141 | one entry, one failure: no later step ever handles, acknowledges or buries it |
| BillingRecovery.CrashStrandsExactly | packages/services/src/events/billing-event-consumer.ts:98-164 | a crash strands the entries its consumer had in hand and no others |
| BillingRecovery.FirstCrashStrands | packages/services/src/events/billing-event-consumer.ts:55-164 | one entry, read by a consumer that crashes: no later step ever calls, acknowledges or buries it |
| BillingRecovery.LostReadStrands | packages/services/src/events/billing-event-consumer.ts:98-114 | a read whose reply is lost strands its whole batch |
| BillingRecovery.Acknowledge | packages/services/src/events/billing-event-consumer.ts:116-203 | from any point, what a consumer has in hand can be brought to its acknowledgment |
| BillingRecovery.RecoverableExactly | packages/services/src/events/billing-event-consumer.ts:98-203 | some continuation acknowledges a pending entry if and only if it is not stranded |
| BillingConsumer.Consumer.ProcessNextBatch | packages/services/src/events/billing-event-consumer.ts:98-144 | with others moving between any two commands, the loop is a run of the protocol that leaves its consumer idle; of a batch it finishes every entry with a handler was handed to it and every other acknowledged |
| BillingConsumer.Consumer.ProcessEntry | packages/services/src/events/billing-event-consumer.ts:116-142 | one entry is dropped or handed to its handler; only a failed acknowledgment of a dropped entry ends the batch |
| BillingConsumer.Consumer.MaybeMoveToDlq | packages/services/src/events/billing-event-consumer.ts:166-203 | whatever fails, the consumer goes on to its next entry by steps of the protocol |
| BillingConsumer.Consumer.Start | packages/services/src/events/billing-event-consumer.ts:55-87 | claiming and then reading until stopped is a run of the protocol |
| GrantApprovals.NextSound | packages/services/src/grants/grants.service.ts:178-432 | every operation keeps each row equal to the fold of its audit rows, and the rows legal |
| GrantApprovals.AcceptedExactly | packages/services/src/grants/grants.service.ts:178-432 | when each operation is accepted, said of the row |
| GrantApprovals.StepExactly | packages/services/src/grants/grants.service.ts:211-432 | what each field of the row is afterwards, and the one audit row with its actor |
| GrantApprovals.CreatedExactly | packages/services/src/grants/grants.service.ts:178-209 | a new application is a draft without approval, checks or dates |
| GrantApprovals.RowIsTheFold | packages/services/src/grants/grants.service.ts:178-432 | in every run status and approver are what the log adds up to, and approved or submitted implies a recorded approver |
| GrantApprovals.SubmissionChain | packages/services/src/grants/grants.service.ts:233-351 | each submission has its own approval and that its own request, with nothing moving the status between |
| GrantApprovals.AwardChain | packages/services/src/grants/grants.service.ts:353-409 | an award follows an approval or a submission, or comes from a service actor |
| GrantApprovals.ApprovalsAreCompliant | packages/services/src/grants/grants.service.ts:254-274 | an approval is accepted exactly for a named user, a pending application and compliant checks |
| GrantApprovals.ChecksSinceApproval | packages/services/src/grants/grants.service.ts:254-432 | in every run an approved row holds the checks last written since its approval, or the compliant ones it was approved with |
| GrantApprovals.SubmissionCompliantExactly | packages/services/src/grants/grants.service.ts:325-351 | an accepted submission is compliant if and only if no checks were written since the approval or the last written were compliant |
| GrantApprovals.SubmittedThoughBlacklisted | packages/services/src/grants/grants.service.ts:325-351 | a run from the empty store in which a blacklisted application is submitted |
| GrantApprovals.Service.CreateApplication | packages/services/src/grants/grants.service.ts:178-209 | the method refines its step |
| GrantApprovals.Service.MoveToStage | packages/services/src/grants/grants.service.ts:211-231 | the method refines its step, audited without moving the status |
| GrantApprovals.Service.RequestHitlApproval | packages/services/src/grants/grants.service.ts:233-252 | the method refines its step, from any status |
| GrantApprovals.Service.ApproveForSubmission | packages/services/src/grants/grants.service.ts:254-298 | the method refines its step, with every refusal in order |
| GrantApprovals.Service.RejectSubmission | packages/services/src/grants/grants.service.ts:300-323 | the method refines its step |
| GrantApprovals.Service.Submit | packages/services/src/grants/grants.service.ts:325-351 | the method refines its step |
| GrantApprovals.Service.Award | packages/services/src/grants/grants.service.ts:353-409 | the method refines its step for staff and for services |
| GrantApprovals.Service.UpdateComplianceChecks | packages/services/src/grants/grants.service.ts:411-432 | the method refines its step |
| Reconciliation.Reconcile | packages/services/src/payment-evidence/reconciliation.ts:37-82 | the loop computes the three sums over payments and the state they give |
| Reconciliation.OnePaymentMore | packages/services/src/payment-evidence/reconciliation.ts:37-63 | what one more payment adds to each sum, by its status and currency in any case of the letters |
| Reconciliation.StateExactly | packages/services/src/payment-evidence/reconciliation.ts:64-82 | the four states by the amount received and the amount due |
| Reconciliation.OrderStatusExactly | packages/services/src/payment-evidence/reconciliation.ts:105-110 | the order's payment status by the paid and the total amount, or without a total |
| Reconciliation.ReconcileOrderBlind | packages/services/src/payment-evidence/reconciliation.ts:37-82 | permuting the payments never changes the balance |
| Reconciliation.SplitByCurrency | packages/services/src/payment-evidence/reconciliation.ts:42-51 | every payment not voided is in the currency due or counted as elsewhere, never both |
| Reconciliation.CurrenciesShareOut | packages/services/src/payment-evidence/reconciliation.ts:42-51 | reconciling once in each of several currencies shares out every live amount in them exactly once |
| Reconciliation.RulesAgreeExactly | packages/services/src/payment-evidence/reconciliation.ts:64-110 | balance state and order payment status agree exactly on the stated condition |
| Reconciliation.RulesAgree | packages/services/src/payment-evidence/reconciliation.ts:64-110 | with something due and no negative amount they always agree |
| Reconciliation.NegativeDisagrees | packages/services/src/payment-evidence/reconciliation.ts:64-110 | a negative amount makes one rule say partial and the other unpaid |
| ConvergenceFeed.PrefilterIsExact | packages/services/src/convergence/convergence-feed.ts:106-122 | the query followed by the exact rule gives exactly the opportunities of the period, in order |
| ConvergenceFeed.PrefilterIsWider | packages/services/src/convergence/convergence-feed.ts:111-117 | the query alone does not |
| ConvergenceFeed.ReportedExactly | packages/services/src/convergence/convergence-mapping.ts:118-138 | an opportunity is of the period when it was created before its end and was open, won or last updated no earlier than its start |
| ConvergenceFeed.LeadInExactlyOne | packages/services/src/convergence/convergence-mapping.ts:95-98 | in periods that tile time a lead belongs to exactly one |
| ConvergenceFeed.TilesAddUp | packages/services/src/convergence/convergence-mapping.ts:95-98 | the feeds of the tiles hold as many leads as the feed of the whole |
| ConvergenceFeed.OpportunityIsContiguous | packages/services/src/convergence/convergence-mapping.ts:118-138 | the periods of an opportunity are consecutive |
| ConvergenceFeed.CollectFeed | packages/services/src/convergence/convergence-mapping.ts:222-233 | items in row order, omissions counted by reason, and items plus omissions equal the rows |
| ConvergenceFeed.OneRowMore | packages/services/src/convergence/convergence-mapping.ts:222-233 | a row adds its item at the end, or one to the count of its reason |
| ConvergenceFeed.MappedOpportunity | packages/services/src/convergence/convergence-mapping.ts:154-219 | stage, value, probability between 0 and 1, customer and dates of each reported opportunity, its own probability before its stage's; a closed deal is left out for its value alone |
| ConvergenceFeed.StageMissingExactly | packages/services/src/convergence/convergence-mapping.ts:144-158 | an open opportunity is left out for its stage exactly when the stage name is missing or blank throughout |
| ConvergenceFeed.ListOpportunities | packages/services/src/convergence/convergence-feed.ts:80-125 | the feed is the mapping of exactly the opportunities of the period |
| EngagementItems.SizesDecide | packages/services/src/engagement-items/engagement-items.service.ts:139-148 | comparing set sizes and looking for strangers accepts exactly the permutations of the items |
| EngagementItems.ReorderShows | packages/services/src/engagement-items/engagement-items.service.ts:138-158 | after a reorder the list is the requested order |
| EngagementItems.ListedIsSorted | packages/services/src/engagement-items/engagement-items.service.ts:84-90 | the list holds exactly the engagement's items, by sort order and then age |
| EngagementItems.CreatedGoesLast | packages/services/src/engagement-items/engagement-items.service.ts:229-235 | an item created without a place goes to the end |
| EngagementItems.NextPlace | packages/services/src/engagement-items/engagement-items.service.ts:229-235 | the next place is one after the last taken, zero in an empty list |
| EngagementItems.PatchedExactly | packages/services/src/engagement-items/engagement-items.service.ts:121-135 | a patch sets what it names; a done item keeps its date unless given another, and others have none |
| EngagementItems.ReorderedExactly | packages/services/src/engagement-items/engagement-items.service.ts:138-158 | a reorder changes place and time stamp of the items, to the place in the request, and nothing else |
| EngagementItems.Service.Create | packages/services/src/engagement-items/engagement-items.service.ts:92-119 | done items and only they are dated, keys stay unique, artifacts belong to the item's engagement; missing engagement, foreign artifact and taken key are refused exactly |
| EngagementItems.Service.Update | packages/services/src/engagement-items/engagement-items.service.ts:121-135 | the patched row, or the refusal of a missing item, a foreign artifact or a taken key, with the same invariants |
| EngagementItems.Service.Reorder | packages/services/src/engagement-items/engagement-items.service.ts:138-158 | accepts exactly the permutations, renumbers those items and changes nothing else |
| EngagementItems.Service.PlaceAll | packages/services/src/engagement-items/engagement-items.service.ts:149-156 | one update after another gives every item its place in the request |

## Left out

- SHA-256, HMAC, random tokens and timing-safe comparison: the digest and the token hash are arbitrary functions, taken to be collision-free where a theorem says so; tokens are taken to be fresh.
- Redis, Postgres, the mail provider and the other remote services: only their outcomes appear, as inputs. Failures of Redis are modelled in the billing stream alone, and of the mail provider a refusal and a lost reply; a failure of the database between two writes of one call is not.
- Concurrency inside one awaited service call: calls are atomic, except for the billing stream's commands, the commands of a send, and changes of the table between pages; the last reads of a send and its provider call are one command.
- The copies of type, source and payload in a dead letter, and log output.
- JSON functions, symbols, big integers and Date objects inside a payload; numbers are held by their rendered text, so 0 and -0 are one value.
- Dates of a campaign are held as their ISO text, and of its import metadata only the parts the program reads.
- Lower-casing and upper-casing cover the ASCII letters.
- Rows are named by their position where the program generates an id; generated ids never repeat.
- The JSON round trip of cached federation values, and their URLs and mappers.
- Soft deletion of grant applications: no operation modelled here sets it. Artifacts of an engagement are a fixed table.
- The contact, its leads and the unsubscribe link of a send are inputs of the call; consent and suppression are looked up in the modelled tables.
- The endless loop of the billing consumer is cut off after any number of rounds; handlers are the same for all consumers of a run.
- XAUTOCLAIM may claim any stale entries up to its count, where Redis takes them in order.
- The decimal parsing and rounding of amounts: cents come as integers, or as nothing when the text is no number.
- The lead mapping of the reporting feed, and the query for customer contacts, whose result is an input.
- The File API, the byte-order mark and the column mapping of the CSV import; the browser download of the export.
- The label matching and whitespace clean-up around the account mask (packages/services/src/payment-evidence/extractors.ts): collapsing blanks can join two short runs, so the theorems are about the mask itself.
- Default limits of list and timeline calls, and cursors or filters given as empty text.
- Email templates: an email is the record of what a template is given.
- Plain row operations of the other services, routers, pages, statistics and logging.
