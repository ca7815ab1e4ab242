/** What an owner approves: the payload of a campaign and the text that is hashed for it. */
module CampaignPayload {
  import opened Options
  import opened CanonicalJson

  /** The parts of a campaign's import metadata the program reads. */
  datatype Metadata = Metadata(
    audience: Option<Text>,
    campaignType: Option<Text>,
    commercialGaStatus: GaStatus,
    doNotClaim: Option<seq<Text>>,
    draftChannels: seq<Option<Text>>)

  /** A campaign row. Dates are held as their ISO rendering. */
  datatype Campaign = Campaign(
    id: Text,
    name: Text,
    skuKey: Option<Text>,
    channel: Text,
    status: CampaignStatus,
    startDate: Option<Text>,
    endDate: Option<Text>,
    orchestrator: Option<Text>,
    gaReadiness: GaReadiness,
    metadata: Option<Metadata>)

  /** The readiness words the program tells apart. */
  datatype GaReadiness = NotReady | OtherReadiness

  datatype GaStatus = Blocked | Paused | Candidate | GaReady | OtherGaStatus

  datatype CampaignStatus = Draft | NeedsReview | Approved | Scheduled | RejectedCampaign | SuppressedCampaign | SentCampaign | OtherStatus

  datatype VariantRow = VariantRow(
    id: Text,
    campaignId: Text,
    createdAt: nat,
    copy: VariantCopy)

  /** The columns of a draft variant that reach the payload and the email. */
  datatype VariantCopy = VariantCopy(
    variantId: Option<Text>,
    language: Option<Text>,
    subject: Option<Text>,
    preheader: Option<Text>,
    body: Text,
    cta: Option<Text>,
    ctaUrl: Option<Text>,
    claimKeysUsed: seq<Text>)

  datatype Payload = Payload(
    campaignId: Text,
    name: Text,
    skuKey: Option<Text>,
    channel: Text,
    sender: Text,
    privacyUrl: Option<Text>,
    startDate: Option<Text>,
    endDate: Option<Text>,
    audienceDefinition: Option<Text>,
    campaignType: Option<Text>,
    doNotClaim: seq<Text>,
    variants: seq<VariantCopy>)

  function Ascii(s: string): Text
    requires forall i | 0 <= i < |s| :: s[i] < 128 as char
  {
    seq(|s|, i requires 0 <= i < |s| => s[i] as nat)
  }

  // ---- Building the payload ----------------------------------------------

  function ResolveOutreachChannel(c: Campaign): Text {
    if c.metadata.Some? && c.metadata.value.draftChannels != [] && c.metadata.value.draftChannels[0].Some?
    then c.metadata.value.draftChannels[0].value
    else c.channel
  }

  /** The product's own privacy notice, when the SKU key starts with "dhanam". */
  function ResolvePrivacyUrl(skuKey: Option<Text>): Option<Text> {
    if skuKey.Some? && Ascii("dhanam") <= skuKey.value then Some(Ascii("https://app.dhan.am/privacy")) else None
  }

  function BuildPayload(c: Campaign, variants: seq<VariantRow>, sender: Text): Payload {
    Payload(
      c.id,
      c.name,
      c.skuKey,
      ResolveOutreachChannel(c),
      sender,
      ResolvePrivacyUrl(c.skuKey),
      c.startDate,
      c.endDate,
      if c.metadata.Some? && c.metadata.value.audience.Some? then c.metadata.value.audience else c.orchestrator,
      if c.metadata.Some? then c.metadata.value.campaignType else None,
      if c.metadata.Some? then c.metadata.value.doNotClaim.GetOr([]) else [],
      seq(|variants|, i requires 0 <= i < |variants| => variants[i].copy))
  }

  /** The payload tells of the campaign and its copy everything an owner has to see. */
  ghost predicate Shows(p: Payload, c: Campaign, rows: seq<VariantRow>, sender: Text) {
    && p.campaignId == c.id && p.name == c.name && p.skuKey == c.skuKey && p.sender == sender
    && p.startDate == c.startDate && p.endDate == c.endDate
    && (match c.metadata
        case None =>
          p.channel == c.channel && p.audienceDefinition == c.orchestrator && p.campaignType == None && p.doNotClaim == []
        case Some(m) =>
          && (if m.draftChannels == [] || m.draftChannels[0] == None then p.channel == c.channel else Some(p.channel) == m.draftChannels[0])
          && (if m.audience == None then p.audienceDefinition == c.orchestrator else p.audienceDefinition == m.audience)
          && p.campaignType == m.campaignType
          && (if m.doNotClaim == None then p.doNotClaim == [] else Some(p.doNotClaim) == m.doNotClaim))
    && (if c.skuKey.Some? && |c.skuKey.value| >= 6 && Spells(c.skuKey.value[..6], "dhanam")
        then p.privacyUrl.Some? && Spells(p.privacyUrl.value, "https://app.dhan.am/privacy") else p.privacyUrl == None)
    && |p.variants| == |rows| && forall i | 0 <= i < |rows| :: p.variants[i] == rows[i].copy
  }

  /** A payload shows a campaign exactly when it is the one built for it. */
  lemma PayloadShows(p: Payload, c: Campaign, rows: seq<VariantRow>, sender: Text)
    ensures Shows(p, c, rows, sender) <==> p == BuildPayload(c, rows, sender)
  {
    PrivacyExactly(c.skuKey, p.privacyUrl);
    hide ResolvePrivacyUrl, Spells;
  }

  lemma SpellsOnce(t: Text, u: Text, word: string)
    requires Spells(u, word)
    ensures Spells(t, word) <==> t == u
  {
  }

  lemma PrivacyExactly(skuKey: Option<Text>, url: Option<Text>)
    ensures url == ResolvePrivacyUrl(skuKey) <==>
            if skuKey.Some? && |skuKey.value| >= 6 && Spells(skuKey.value[..6], "dhanam")
            then url.Some? && Spells(url.value, "https://app.dhan.am/privacy") else url == None
  {
    var (prefix, notice) := (Ascii("dhanam"), Ascii("https://app.dhan.am/privacy"));
    AsciiSpells("dhanam");
    AsciiSpells("https://app.dhan.am/privacy");
    hide Ascii, Spells;
    if skuKey.Some? && |skuKey.value| >= 6 { SpellsOnce(skuKey.value[..6], prefix, "dhanam"); }
    if url.Some? { SpellsOnce(url.value, notice, "https://app.dhan.am/privacy"); }
    assert |prefix| == 6;
  }

  // ---- The payload as JSON -----------------------------------------------

  function OptionalText(t: Option<Text>): Json {
    match t
    case Some(s) => Str(s)
    case None => Null
  }

  function TextArray(ts: seq<Text>): Json {
    Array(seq(|ts|, i requires 0 <= i < |ts| => Str(ts[i])))
  }

  function VariantEntries(v: VariantCopy): seq<Entry> {
    [ Entry(Ascii("variantId"), OptionalText(v.variantId)),
      Entry(Ascii("language"), OptionalText(v.language)),
      Entry(Ascii("subject"), OptionalText(v.subject)),
      Entry(Ascii("preheader"), OptionalText(v.preheader)),
      Entry(Ascii("body"), Str(v.body)),
      Entry(Ascii("cta"), OptionalText(v.cta)),
      Entry(Ascii("ctaUrl"), OptionalText(v.ctaUrl)),
      Entry(Ascii("claimKeysUsed"), TextArray(v.claimKeysUsed)) ]
  }

  function ScheduleEntries(p: Payload): seq<Entry> {
    [ Entry(Ascii("startDate"), OptionalText(p.startDate)),
      Entry(Ascii("endDate"), OptionalText(p.endDate)) ]
  }

  function VariantsJson(vs: seq<VariantCopy>): Json {
    Array(seq(|vs|, i requires 0 <= i < |vs| => Object(VariantEntries(vs[i]))))
  }

  function PayloadEntries(p: Payload): seq<Entry> {
    [ Entry(Ascii("campaignId"), Str(p.campaignId)),
      Entry(Ascii("name"), Str(p.name)),
      Entry(Ascii("skuKey"), OptionalText(p.skuKey)),
      Entry(Ascii("channel"), Str(p.channel)),
      Entry(Ascii("sender"), Str(p.sender)),
      Entry(Ascii("privacyUrl"), OptionalText(p.privacyUrl)),
      Entry(Ascii("schedule"), Object(ScheduleEntries(p))),
      Entry(Ascii("audienceDefinition"), OptionalText(p.audienceDefinition)),
      Entry(Ascii("campaignType"), OptionalText(p.campaignType)),
      Entry(Ascii("guardrailsDoNotClaim"), TextArray(p.doNotClaim)),
      Entry(Ascii("variants"), VariantsJson(p.variants)) ]
  }

  function PayloadJson(p: Payload): Json {
    Object(PayloadEntries(p))
  }

  /** Two objects with the same distinct keys and one meaning agree field by field. */
  lemma SameFields(es: seq<Entry>, fs: seq<Entry>)
    requires |es| == |fs| && forall i | 0 <= i < |es| :: es[i].key == fs[i].key
    requires forall i | 0 <= i < |es| :: !es[i].value.Undefined? && !fs[i].value.Undefined?
    requires DistinctKeysWithin(Object(es)) && DistinctKeysWithin(Object(fs))
    requires Meaning(Object(es)) == Meaning(Object(fs))
    ensures forall i | 0 <= i < |es| :: Meaning(es[i].value) == Meaning(fs[i].value)
  {
    ObjectMembersAt(Object(es));
    ObjectMembersAt(Object(fs));
    var m := Meaning(Object(es)).members;
    forall i | 0 <= i < |es| ensures Meaning(es[i].value) == Meaning(fs[i].value) {
      assert es[i] in es && fs[i] in fs;
      assert m[es[i].key] == Meaning(es[i].value) && m[fs[i].key] == Meaning(fs[i].value);
    }
  }

  lemma OptionalTextExact(s: Option<Text>, t: Option<Text>)
    requires Meaning(OptionalText(s)) == Meaning(OptionalText(t))
    ensures s == t
  {
  }

  lemma TextArrayExact(s: seq<Text>, t: seq<Text>)
    requires Meaning(TextArray(s)) == Meaning(TextArray(t))
    ensures s == t
  {
    var u, w := Meaning(TextArray(s)).items, Meaning(TextArray(t)).items;
    assert |s| == |u| && |t| == |w|;
    forall i | 0 <= i < |s| ensures s[i] == t[i] {
      assert u[i] == VStr(s[i]) && w[i] == VStr(t[i]);
    }
  }

  lemma VariantKeysDistinct(v: VariantCopy)
    ensures DistinctKeysWithin(Object(VariantEntries(v)))
  {
    var es := VariantEntries(v);
    forall i, j | 0 <= i < j < |es| ensures es[i].key != es[j].key {
      if |es[i].key| == |es[j].key| {
        assert es[i].key[0] != es[j].key[0];
      }
    }
  }

  lemma PayloadKeysDistinct(p: Payload)
    ensures DistinctKeys(PayloadEntries(p)) && DistinctKeysWithin(PayloadJson(p))
  {
    var es := PayloadEntries(p);
    forall i, j | 0 <= i < j < |es| ensures es[i].key != es[j].key {
      if |es[i].key| == |es[j].key| {
        assert es[i].key[0] != es[j].key[0] || es[i].key[1] != es[j].key[1];
      }
    }
    forall i | 0 <= i < |p.variants| ensures DistinctKeysWithin(VariantsJson(p.variants).items[i]) {
      VariantKeysDistinct(p.variants[i]);
    }
    ScheduleKeysDistinct(p);
    assert DistinctKeysWithin(VariantsJson(p.variants));
  }

  lemma ScheduleKeysDistinct(p: Payload)
    ensures DistinctKeysWithin(Object(ScheduleEntries(p)))
  {
    assert |ScheduleEntries(p)[0].key| != |ScheduleEntries(p)[1].key|;
  }

  ghost predicate SameVariantMeanings(v: VariantCopy, w: VariantCopy) {
    forall i | 0 <= i < 8 :: Meaning(VariantEntries(v)[i].value) == Meaning(VariantEntries(w)[i].value)
  }

  lemma VariantFieldsExact(v: VariantCopy, w: VariantCopy)
    requires SameVariantMeanings(v, w)
    ensures v == w
  {
    var es, fs := VariantEntries(v), VariantEntries(w);
    assert forall i | 0 <= i < 8 :: Meaning(es[i].value) == Meaning(fs[i].value);
    assert es[4].value == Str(v.body) && fs[4].value == Str(w.body);
    assert Meaning(es[4].value) == Meaning(fs[4].value);
    assert Meaning(es[4].value) == VStr(v.body) && Meaning(fs[4].value) == VStr(w.body);
    hide Ascii, OptionalText, TextArray, Meaning, SameVariantMeanings;
    OptionalTextExact(v.variantId, w.variantId) by { assert Meaning(es[0].value) == Meaning(fs[0].value); }
    OptionalTextExact(v.language, w.language) by { assert Meaning(es[1].value) == Meaning(fs[1].value); }
    OptionalTextExact(v.subject, w.subject) by { assert Meaning(es[2].value) == Meaning(fs[2].value); }
    OptionalTextExact(v.preheader, w.preheader) by { assert Meaning(es[3].value) == Meaning(fs[3].value); }
    OptionalTextExact(v.cta, w.cta) by { assert Meaning(es[5].value) == Meaning(fs[5].value); }
    OptionalTextExact(v.ctaUrl, w.ctaUrl) by { assert Meaning(es[6].value) == Meaning(fs[6].value); }
    TextArrayExact(v.claimKeysUsed, w.claimKeysUsed) by { assert Meaning(es[7].value) == Meaning(fs[7].value); }
  }

  lemma VariantExact(v: VariantCopy, w: VariantCopy)
    requires Meaning(Object(VariantEntries(v))) == Meaning(Object(VariantEntries(w)))
    ensures v == w
  {
    VariantKeysDistinct(v);
    VariantKeysDistinct(w);
    assert SameVariantMeanings(v, w) by {
      hide Meaning, DistinctKeysWithin, Ascii, OptionalText, TextArray;
      SameFields(VariantEntries(v), VariantEntries(w));
    }
    hide Meaning, VariantEntries, DistinctKeysWithin, SameVariantMeanings;
    VariantFieldsExact(v, w);
  }

  lemma VariantsExact(vs: seq<VariantCopy>, ws: seq<VariantCopy>)
    requires Meaning(VariantsJson(vs)) == Meaning(VariantsJson(ws))
    ensures vs == ws
  {
    var u, w := Meaning(VariantsJson(vs)).items, Meaning(VariantsJson(ws)).items;
    assert |vs| == |u| && |ws| == |w|;
    forall i | 0 <= i < |vs| ensures vs[i] == ws[i] {
      assert u[i] == Meaning(Object(VariantEntries(vs[i])));
      assert w[i] == Meaning(Object(VariantEntries(ws[i])));
      VariantExact(vs[i], ws[i]);
    }
  }

  lemma ScheduleExact(p: Payload, q: Payload)
    requires Meaning(Object(ScheduleEntries(p))) == Meaning(Object(ScheduleEntries(q)))
    ensures p.startDate == q.startDate && p.endDate == q.endDate
  {
    ScheduleKeysDistinct(p);
    ScheduleKeysDistinct(q);
    var es, fs := ScheduleEntries(p), ScheduleEntries(q);
    SameFields(es, fs);
    OptionalTextExact(p.startDate, q.startDate) by { assert Meaning(es[0].value) == Meaning(fs[0].value); }
    OptionalTextExact(p.endDate, q.endDate) by { assert Meaning(es[1].value) == Meaning(fs[1].value); }
  }

  ghost predicate SameFieldMeanings(p: Payload, q: Payload) {
    forall i | 0 <= i < 11 :: Meaning(PayloadEntries(p)[i].value) == Meaning(PayloadEntries(q)[i].value)
  }

  lemma IdentityExact(p: Payload, q: Payload)
    requires SameFieldMeanings(p, q)
    ensures p.campaignId == q.campaignId && p.name == q.name && p.skuKey == q.skuKey
    ensures p.channel == q.channel && p.sender == q.sender
  {
    var es, fs := PayloadEntries(p), PayloadEntries(q);
    assert Meaning(es[0].value) == Meaning(fs[0].value);
    assert Meaning(es[1].value) == Meaning(fs[1].value);
    OptionalTextExact(p.skuKey, q.skuKey) by { assert Meaning(es[2].value) == Meaning(fs[2].value); }
    assert Meaning(es[3].value) == Meaning(fs[3].value);
    assert Meaning(es[4].value) == Meaning(fs[4].value);
  }

  lemma ContentExact(p: Payload, q: Payload)
    requires SameFieldMeanings(p, q)
    ensures p.privacyUrl == q.privacyUrl && p.startDate == q.startDate && p.endDate == q.endDate
    ensures p.audienceDefinition == q.audienceDefinition && p.campaignType == q.campaignType
    ensures p.doNotClaim == q.doNotClaim && p.variants == q.variants
  {
    var es, fs := PayloadEntries(p), PayloadEntries(q);
    OptionalTextExact(p.privacyUrl, q.privacyUrl) by { assert Meaning(es[5].value) == Meaning(fs[5].value); }
    ScheduleExact(p, q) by { assert Meaning(es[6].value) == Meaning(fs[6].value); }
    OptionalTextExact(p.audienceDefinition, q.audienceDefinition) by { assert Meaning(es[7].value) == Meaning(fs[7].value); }
    OptionalTextExact(p.campaignType, q.campaignType) by { assert Meaning(es[8].value) == Meaning(fs[8].value); }
    TextArrayExact(p.doNotClaim, q.doNotClaim) by { assert Meaning(es[9].value) == Meaning(fs[9].value); }
    VariantsExact(p.variants, q.variants) by { assert Meaning(es[10].value) == Meaning(fs[10].value); }
  }

  /** The JSON of a payload forgets nothing. */
  lemma PayloadJsonExact(p: Payload, q: Payload)
    requires Meaning(PayloadJson(p)) == Meaning(PayloadJson(q))
    ensures p == q
  {
    PayloadKeysDistinct(p);
    PayloadKeysDistinct(q);
    assert SameFieldMeanings(p, q) by {
      hide Meaning, DistinctKeysWithin, Ascii, OptionalText, TextArray, VariantsJson, ScheduleEntries;
      SameFields(PayloadEntries(p), PayloadEntries(q));
    }
    hide Meaning, PayloadEntries, DistinctKeysWithin, DistinctKeys, SameFieldMeanings;
    IdentityExact(p, q);
    ContentExact(p, q);
  }

  function OptionalValue(t: Option<Text>): Value {
    if t.Some? then VStr(t.value) else VNull
  }

  /** The object has this member. */
  ghost predicate Named(v: Value, key: string, value: Value) {
    exists t: Text | t in (if v.VObject? then v.members.Keys else {}) :: Spells(t, key) && v.members[t] == value
  }

  /** The text and the string are the same characters. */
  predicate Spells(t: Text, key: string) {
    |t| == |key| && forall i | 0 <= i < |key| :: t[i] == key[i] as nat
  }

  lemma OptionalTextMeans(t: Option<Text>)
    ensures Meaning(OptionalText(t)) == OptionalValue(t) && !OptionalText(t).Undefined?
  {
  }

  lemma AsciiSpells(key: string)
    requires forall i | 0 <= i < |key| :: key[i] < 128 as char
    ensures Spells(Ascii(key), key)
  {
  }

  lemma MemberNamed(es: seq<Entry>, i: nat, key: string)
    requires i < |es| && DistinctKeysWithin(Object(es)) && !es[i].value.Undefined? && Spells(es[i].key, key)
    ensures Named(Meaning(Object(es)), key, Meaning(es[i].value))
  {
    ObjectMembersAt(Object(es));
    assert es[i] in es;
  }

  /** Read back as JSON, each member of a payload stands under its own name. */
  lemma {:induction false} PayloadIdentityNames(p: Payload)
    ensures var v := Meaning(PayloadJson(p));
            && Named(v, "campaignId", VStr(p.campaignId))
            && Named(v, "name", VStr(p.name))
            && Named(v, "skuKey", OptionalValue(p.skuKey))
            && Named(v, "channel", VStr(p.channel))
  {
    PayloadKeysDistinct(p);
    var es := PayloadEntries(p);
    TextMeans(p.campaignId);
    TextMeans(p.name);
    TextMeans(p.channel);
    OptionalTextMeans(p.skuKey);
    hide Meaning, DistinctKeysWithin, Ascii, OptionalText, OptionalValue, TextArray, VariantsJson, ScheduleEntries, Named, Spells;
    MemberNamed(es, 0, "campaignId") by { AsciiSpells("campaignId"); }
    MemberNamed(es, 1, "name") by { AsciiSpells("name"); }
    MemberNamed(es, 2, "skuKey") by { AsciiSpells("skuKey"); }
    MemberNamed(es, 3, "channel") by { AsciiSpells("channel"); }
  }

  lemma {:induction false} PayloadSenderNames(p: Payload)
    ensures var v := Meaning(PayloadJson(p));
            && Named(v, "sender", VStr(p.sender))
            && Named(v, "privacyUrl", OptionalValue(p.privacyUrl))
            && Named(v, "audienceDefinition", OptionalValue(p.audienceDefinition))
            && Named(v, "campaignType", OptionalValue(p.campaignType))
  {
    PayloadKeysDistinct(p);
    var es := PayloadEntries(p);
    TextMeans(p.sender);
    OptionalTextMeans(p.privacyUrl);
    OptionalTextMeans(p.audienceDefinition);
    OptionalTextMeans(p.campaignType);
    hide Meaning, DistinctKeysWithin, Ascii, OptionalText, OptionalValue, TextArray, VariantsJson, ScheduleEntries, Named, Spells;
    MemberNamed(es, 4, "sender") by { AsciiSpells("sender"); }
    MemberNamed(es, 5, "privacyUrl") by { AsciiSpells("privacyUrl"); }
    MemberNamed(es, 7, "audienceDefinition") by { AsciiSpells("audienceDefinition"); }
    MemberNamed(es, 8, "campaignType") by { AsciiSpells("campaignType"); }
  }

  lemma {:induction false} PayloadContentNames(p: Payload)
    ensures var v := Meaning(PayloadJson(p));
            && Named(v, "schedule", Meaning(Object(ScheduleEntries(p))))
            && Named(v, "guardrailsDoNotClaim", Meaning(TextArray(p.doNotClaim)))
            && Named(v, "variants", Meaning(VariantsJson(p.variants)))
  {
    PayloadKeysDistinct(p);
    var es := PayloadEntries(p);
    assert es[9].value.Array? && es[10].value.Array?;
    hide Meaning, DistinctKeysWithin, Ascii, OptionalText, OptionalValue, TextArray, VariantsJson, ScheduleEntries, Named, Spells;
    MemberNamed(es, 6, "schedule") by { AsciiSpells("schedule"); }
    MemberNamed(es, 9, "guardrailsDoNotClaim") by { AsciiSpells("guardrailsDoNotClaim"); }
    MemberNamed(es, 10, "variants") by { AsciiSpells("variants"); }
  }

  lemma TextMeans(t: Text)
    ensures Meaning(Str(t)) == VStr(t)
  {
  }

  lemma {:induction false} ScheduleNames(p: Payload)
    ensures var v := Meaning(Object(ScheduleEntries(p)));
            Named(v, "startDate", OptionalValue(p.startDate)) && Named(v, "endDate", OptionalValue(p.endDate))
  {
    ScheduleKeysDistinct(p);
    var es := ScheduleEntries(p);
    OptionalTextMeans(p.startDate);
    OptionalTextMeans(p.endDate);
    hide Meaning, DistinctKeysWithin, Ascii, OptionalText, OptionalValue, Named, Spells;
    MemberNamed(es, 0, "startDate") by { AsciiSpells("startDate"); }
    MemberNamed(es, 1, "endDate") by { AsciiSpells("endDate"); }
  }

  lemma {:induction false} VariantNames(w: VariantCopy)
    ensures var v := Meaning(Object(VariantEntries(w)));
            && Named(v, "variantId", OptionalValue(w.variantId))
            && Named(v, "language", OptionalValue(w.language))
            && Named(v, "subject", OptionalValue(w.subject))
            && Named(v, "preheader", OptionalValue(w.preheader))
  {
    VariantKeysDistinct(w);
    var es := VariantEntries(w);
    OptionalTextMeans(w.variantId);
    OptionalTextMeans(w.language);
    OptionalTextMeans(w.subject);
    OptionalTextMeans(w.preheader);
    hide Meaning, DistinctKeysWithin, Ascii, OptionalText, OptionalValue, TextArray, VariantsJson, ScheduleEntries, Named, Spells;
    MemberNamed(es, 0, "variantId") by { AsciiSpells("variantId"); }
    MemberNamed(es, 1, "language") by { AsciiSpells("language"); }
    MemberNamed(es, 2, "subject") by { AsciiSpells("subject"); }
    MemberNamed(es, 3, "preheader") by { AsciiSpells("preheader"); }
  }

  lemma {:induction false} VariantContentNames(w: VariantCopy)
    ensures var v := Meaning(Object(VariantEntries(w)));
            && Named(v, "body", VStr(w.body))
            && Named(v, "cta", OptionalValue(w.cta))
            && Named(v, "ctaUrl", OptionalValue(w.ctaUrl))
            && Named(v, "claimKeysUsed", Meaning(TextArray(w.claimKeysUsed)))
  {
    VariantKeysDistinct(w);
    var es := VariantEntries(w);
    TextMeans(w.body);
    OptionalTextMeans(w.cta);
    OptionalTextMeans(w.ctaUrl);
    assert es[7].value.Array?;
    hide Meaning, DistinctKeysWithin, Ascii, OptionalText, OptionalValue, TextArray, VariantsJson, ScheduleEntries, Named, Spells;
    MemberNamed(es, 4, "body") by { AsciiSpells("body"); }
    MemberNamed(es, 5, "cta") by { AsciiSpells("cta"); }
    MemberNamed(es, 6, "ctaUrl") by { AsciiSpells("ctaUrl"); }
    MemberNamed(es, 7, "claimKeysUsed") by { AsciiSpells("claimKeysUsed"); }
  }

  // ---- The hash ------------------------------------------------------------

  /** A digest is taken to be free of collisions. */
  type Digest = nat

  ghost predicate CollisionFree(digest: seq<Byte> -> Digest) {
    forall x, y :: digest(x) == digest(y) ==> x == y
  }

  function HashPayload(p: Payload, digest: seq<Byte> -> Digest): Digest {
    digest(CanonicalBytes(PayloadJson(p)))
  }

  /** Equal hashes mean equal payloads: any edit of an approved field shows. */
  lemma {:induction false} HashExact(p: Payload, q: Payload, digest: seq<Byte> -> Digest)
    requires CollisionFree(digest)
    ensures HashPayload(p, digest) == HashPayload(q, digest) <==> p == q
  {
    if HashPayload(p, digest) == HashPayload(q, digest) {
      PayloadKeysDistinct(p);
      PayloadKeysDistinct(q);
      CanonicalBytesExact(PayloadJson(p), PayloadJson(q));
      PayloadJsonExact(p, q);
    }
  }

  /** The hash as the rest of the program uses it: a function of the payload. */
  function Hashing(digest: seq<Byte> -> Digest): Payload -> Digest {
    (p: Payload) => HashPayload(p, digest)
  }

  ghost predicate Injective(hashOf: Payload -> Digest) {
    forall p, q :: hashOf(p) == hashOf(q) ==> p == q
  }

  /** So a collision-free digest makes a hash that tells all payloads apart. */
  lemma HashingInjective(digest: seq<Byte> -> Digest)
    requires CollisionFree(digest)
    ensures Injective(Hashing(digest))
  {
    forall p, q | Hashing(digest)(p) == Hashing(digest)(q) ensures p == q {
      HashExact(p, q, digest);
    }
  }

  // ---- The order of variants -----------------------------------------------

  predicate RowBefore(v: VariantRow, w: VariantRow) {
    v.createdAt < w.createdAt || (v.createdAt == w.createdAt && KeyLess(v.id, w.id))
  }

  function InsertRow(v: VariantRow, rows: seq<VariantRow>): seq<VariantRow> {
    if rows == [] || !RowBefore(rows[0], v) then [v] + rows else [rows[0]] + InsertRow(v, rows[1..])
  }

  /** All rows of a campaign, by creation time and then id: what is reviewed and hashed. */
  function LoadVariants(rows: seq<VariantRow>, campaignId: Text): seq<VariantRow> {
    if rows == [] then []
    else if rows[0].campaignId == campaignId then InsertRow(rows[0], LoadVariants(rows[1..], campaignId))
    else LoadVariants(rows[1..], campaignId)
  }

  /** The one row the dispatch query takes: the least in the same order. */
  function FirstVariant(rows: seq<VariantRow>, campaignId: Text): Option<VariantRow> {
    if rows == [] then None
    else
      var rest := FirstVariant(rows[1..], campaignId);
      if rows[0].campaignId != campaignId then rest
      else if rest.Some? && RowBefore(rest.value, rows[0]) then rest
      else Some(rows[0])
  }

  /** The dispatched variant is the first one that was reviewed. */
  lemma {:induction false} FirstVariantIsReviewedFirst(rows: seq<VariantRow>, campaignId: Text)
    ensures var loaded := LoadVariants(rows, campaignId);
            FirstVariant(rows, campaignId) == if loaded == [] then None else Some(loaded[0])
  {
    if rows != [] {
      FirstVariantIsReviewedFirst(rows[1..], campaignId);
    }
  }

  ghost predicate InOrder(rows: seq<VariantRow>) {
    forall i, j | 0 <= i < j < |rows| :: !RowBefore(rows[j], rows[i])
  }

  lemma RowBeforeTransitive(u: VariantRow, v: VariantRow, w: VariantRow)
    requires !RowBefore(v, u) && !RowBefore(w, v)
    ensures !RowBefore(w, u)
  {
    KeyLessTrichotomy(u.id, v.id);
    KeyLessTrichotomy(v.id, w.id);
    KeyLessTrichotomy(u.id, w.id);
    if KeyLess(u.id, v.id) && KeyLess(v.id, w.id) {
      KeyLessTransitive(u.id, v.id, w.id);
    }
  }

  lemma {:induction false} InsertRowInOrder(v: VariantRow, rows: seq<VariantRow>)
    requires InOrder(rows)
    ensures InOrder(InsertRow(v, rows))
    ensures multiset(InsertRow(v, rows)) == multiset(rows) + multiset{v}
  {
    if rows == [] {
    } else if !RowBefore(rows[0], v) {
      forall j | 0 <= j < |rows| ensures !RowBefore(rows[j], v) {
        if j > 0 { RowBeforeTransitive(v, rows[0], rows[j]); }
      }
    } else {
      var rest := InsertRow(v, rows[1..]);
      InsertRowInOrder(v, rows[1..]);
      assert rows == [rows[0]] + rows[1..];
      KeyLessTrichotomy(rows[0].id, v.id);
      forall j | 0 <= j < |rest| ensures !RowBefore(rest[j], rows[0]) {
        assert rest[j] in multiset(rest);
        assert rest[j] == v || rest[j] in rows[1..];
      }
    }
  }

  function RowsOf(rows: seq<VariantRow>, campaignId: Text): seq<VariantRow> {
    if rows == [] then []
    else (if rows[0].campaignId == campaignId then [rows[0]] else []) + RowsOf(rows[1..], campaignId)
  }

  /** By creation time, and rows of one time by id. */
  ghost predicate OldestFirst(rows: seq<VariantRow>) {
    forall i, j | 0 <= i < j < |rows| ::
      || rows[i].createdAt < rows[j].createdAt
      || (rows[i].createdAt == rows[j].createdAt && !KeyLess(rows[j].id, rows[i].id))
  }

  lemma OrderedByAge(rows: seq<VariantRow>)
    requires InOrder(rows)
    ensures OldestFirst(rows)
  {
    hide KeyLess;
  }

  /** Loading returns exactly the campaign's rows, by creation time and then id. */
  lemma LoadVariantsSorts(rows: seq<VariantRow>, campaignId: Text)
    ensures OldestFirst(LoadVariants(rows, campaignId))
    ensures multiset(LoadVariants(rows, campaignId)) == multiset(RowsOf(rows, campaignId))
  {
    LoadedInOrder(rows, campaignId);
    OrderedByAge(LoadVariants(rows, campaignId));
  }

  lemma {:induction false} RowsOfMembers(rows: seq<VariantRow>, campaignId: Text, row: VariantRow)
    ensures row in RowsOf(rows, campaignId) <==> row in rows && row.campaignId == campaignId
  {
    if rows != [] {
      RowsOfMembers(rows[1..], campaignId, row);
      assert rows == [rows[0]] + rows[1..];
    }
  }

  lemma {:induction false} LoadedInOrder(rows: seq<VariantRow>, campaignId: Text)
    ensures InOrder(LoadVariants(rows, campaignId))
    ensures multiset(LoadVariants(rows, campaignId)) == multiset(RowsOf(rows, campaignId))
  {
    if rows != [] {
      LoadedInOrder(rows[1..], campaignId);
      if rows[0].campaignId == campaignId {
        InsertRowInOrder(rows[0], LoadVariants(rows[1..], campaignId));
      }
    }
  }
}
