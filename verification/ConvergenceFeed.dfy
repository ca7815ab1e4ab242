/** What a reporting period contains, and the feed built from it. Instants are numbers. */
module ConvergenceFeed {
  import opened Options
  import opened Trimming

  /** Half open: `start <= t < end`. */
  datatype Period = Period(start: int, end: int)

  datatype Lead = Lead(id: string, createdAt: int)

  datatype Opportunity = Opportunity(
    id: string,
    status: string,
    stageName: Option<string>,
    stageProbability: Option<int>,
    value: Option<real>,
    probability: Option<int>,
    contactId: Option<string>,
    expectedCloseDate: Option<int>,
    createdAt: int,
    updatedAt: int,
    wonAt: Option<int>)

  // ---- The period rule -----------------------------------------------------------------

  predicate LeadInPeriod(row: Lead, period: Period) {
    period.start <= row.createdAt < period.end
  }

  predicate IsClosed(status: string) {
    status == "won" || status == "lost"
  }

  function RecordedCloseTime(row: Opportunity): Option<int> {
    if row.status == "won" then row.wonAt else None
  }

  function CloseTimeBound(row: Opportunity): Option<int> {
    if !IsClosed(row.status) then None
    else if RecordedCloseTime(row).Some? then RecordedCloseTime(row)
    else Some(row.updatedAt)
  }

  predicate OpportunityInPeriod(row: Opportunity, period: Period) {
    row.createdAt < period.end && (CloseTimeBound(row).None? || CloseTimeBound(row).value >= period.start)
  }

  /** The query's condition. A missing close time compares as false. */
  predicate Prefilter(row: Opportunity, period: Period) {
    && row.createdAt < period.end
    && (!IsClosed(row.status) || row.updatedAt >= period.start || (row.wonAt.Some? && row.wonAt.value >= period.start))
  }

  /** The deal was still open when the period began, or closed no earlier; a win is dated by when it was recorded, and a
      closed deal without such a date by its last update. */
  ghost predicate Reported(row: Opportunity, period: Period) {
    && row.createdAt < period.end
    && (if row.status == "won" && row.wonAt.Some? then period.start <= row.wonAt.value
        else if row.status == "won" || row.status == "lost" then period.start <= row.updatedAt
        else true)
  }

  lemma ReportedExactly(row: Opportunity, period: Period)
    ensures OpportunityInPeriod(row, period) <==> Reported(row, period)
  {
  }

  function Filter<R>(rows: seq<R>, keep: R -> bool): seq<R> {
    if rows == [] then []
    else Filter(rows[..|rows| - 1], keep) + (if keep(rows[|rows| - 1]) then [rows[|rows| - 1]] else [])
  }

  function Matching(period: Period): Opportunity -> bool {
    row => Prefilter(row, period)
  }

  function InPeriod(period: Period): Opportunity -> bool {
    row => OpportunityInPeriod(row, period)
  }

  lemma {:induction false} FilterTwice<R>(rows: seq<R>, wide: R -> bool, narrow: R -> bool)
    requires forall row | row in rows && narrow(row) :: wide(row)
    ensures Filter(Filter(rows, wide), narrow) == Filter(rows, narrow)
    decreases |rows|
  {
    if rows != [] {
      var front := rows[..|rows| - 1];
      FilterTwice(front, wide, narrow);
      var last := rows[|rows| - 1];
      assert last in rows;
      if wide(last) {
        var wides := Filter(rows, wide);
        assert wides == Filter(front, wide) + [last];
        assert wides[..|wides| - 1] == Filter(front, wide);
      } else {
        assert Filter(rows, wide) == Filter(front, wide);
      }
    }
  }

  /** The query loses nothing: filtering what it returns gives exactly the opportunities of the period, in order. */
  lemma PrefilterIsExact(rows: seq<Opportunity>, period: Period)
    ensures forall row :: row in Filter(rows, InPeriod(period)) <==> row in rows && Reported(row, period)
    ensures Filter(Filter(rows, Matching(period)), InPeriod(period)) == Filter(rows, InPeriod(period))
  {
    FilterTwice(rows, Matching(period), InPeriod(period));
    forall row ensures row in Filter(rows, InPeriod(period)) <==> row in rows && Reported(row, period) {
      FilterMembers(rows, InPeriod(period), row);
    }
  }

  lemma {:induction false} FilterMembers<R>(rows: seq<R>, keep: R -> bool, row: R)
    ensures row in Filter(rows, keep) <==> row in rows && keep(row)
    decreases |rows|
  {
    if rows != [] {
      FilterMembers(rows[..|rows| - 1], keep, row);
      assert rows == rows[..|rows| - 1] + [rows[|rows| - 1]];
    }
  }

  /** And it is wider than the rule: an opportunity won before the period and edited in it is fetched, not reported. */
  lemma PrefilterIsWider(row: Opportunity, period: Period)
    requires period.start < period.end
    requires row.status == "won" && row.wonAt.Some? && row.wonAt.value < period.start
    requires row.createdAt < period.end && row.updatedAt >= period.start
    ensures Prefilter(row, period) && !OpportunityInPeriod(row, period)
  {
  }

  // ---- Periods that tile time -------------------------------------------------------------

  /** Each period ends where the next starts. */
  ghost predicate Tiling(periods: seq<Period>) {
    && (forall i | 0 <= i < |periods| :: periods[i].start <= periods[i].end)
    && (forall i, j | 0 <= i < j < |periods| && j == i + 1 :: periods[i].end == periods[j].start)
  }

  lemma {:induction false} TilingOrdered(periods: seq<Period>, i: nat, j: nat)
    requires Tiling(periods) && i < j < |periods|
    ensures periods[i].end <= periods[j].start
    decreases j - i
  {
    if j > i + 1 {
      TilingOrdered(periods, i + 1, j);
    }
  }

  /** A lead captured within the tiled time is reported in exactly one period. */
  lemma {:induction false} LeadInExactlyOne(row: Lead, periods: seq<Period>) returns (i: nat)
    requires Tiling(periods) && periods != []
    requires periods[0].start <= row.createdAt < periods[|periods| - 1].end
    ensures i < |periods| && LeadInPeriod(row, periods[i])
    ensures forall j: nat | j < |periods| && LeadInPeriod(row, periods[j]) :: j == i
    decreases |periods|
  {
    var last := |periods| - 1;
    if row.createdAt >= periods[last].start {
      i := last;
    } else {
      var front := periods[..last];
      assert last > 0 && periods[last - 1].end == periods[last].start;
      i := LeadInExactlyOne(row, front);
      assert forall j: nat | j < last :: front[j] == periods[j];
    }
    forall j: nat | j < |periods| && LeadInPeriod(row, periods[j]) ensures j == i {
      if j < i { TilingOrdered(periods, j, i); }
      if i < j { TilingOrdered(periods, i, j); }
    }
  }

  function CapturedIn(period: Period): Lead -> bool {
    row => LeadInPeriod(row, period)
  }

  function FeedSizes(rows: seq<Lead>, periods: seq<Period>): nat {
    if periods == [] then 0
    else FeedSizes(rows, periods[..|periods| - 1]) + |Filter(rows, CapturedIn(periods[|periods| - 1]))|
  }

  /** Period by period or all at once: the feeds of the tiles hold as many leads as the feed of the whole. */
  lemma {:induction false} TilesAddUp(rows: seq<Lead>, periods: seq<Period>)
    requires Tiling(periods) && periods != []
    ensures FeedSizes(rows, periods) == |Filter(rows, CapturedIn(Period(periods[0].start, periods[|periods| - 1].end)))|
    decreases |periods|
  {
    var last := |periods| - 1;
    var front := periods[..last];
    if last == 0 {
      assert FeedSizes(rows, front) == 0;
    } else {
      TilesAddUp(rows, front);
      assert front[last - 1] == periods[last - 1] && front[0] == periods[0];
      if last > 1 { TilingOrdered(periods, 0, last - 1); }
      FilterSplits(rows, periods[0].start, periods[last].start, periods[last].end);
    }
  }

  lemma {:induction false} FilterSplits(rows: seq<Lead>, a: int, b: int, c: int)
    requires a <= b <= c
    ensures |Filter(rows, CapturedIn(Period(a, c)))| == |Filter(rows, CapturedIn(Period(a, b)))| + |Filter(rows, CapturedIn(Period(b, c)))|
    decreases |rows|
  {
    if rows != [] {
      FilterSplits(rows[..|rows| - 1], a, b, c);
    }
  }

  /** An opportunity is reported over a run of consecutive periods: it never leaves the feed and comes back. */
  lemma OpportunityIsContiguous(row: Opportunity, periods: seq<Period>, i: nat, j: nat, k: nat)
    requires Tiling(periods) && i < j < k < |periods|
    requires OpportunityInPeriod(row, periods[i]) && OpportunityInPeriod(row, periods[k])
    ensures OpportunityInPeriod(row, periods[j])
  {
    TilingOrdered(periods, i, j);
    TilingOrdered(periods, j, k);
  }

  // ---- The feed -----------------------------------------------------------------------------

  datatype OmitReason = MissingStatus | MissingStage | MissingValue | MissingProbability

  datatype MapResult<T> = Item(item: T) | Omitted(reason: OmitReason)

  datatype FeedResult<T> = FeedResult(items: seq<T>, omitted: map<OmitReason, nat>)

  /** The items of the rows that map to one, in order. */
  function ItemsOf<R, T>(rows: seq<R>, mapping: R -> MapResult<T>): seq<T> {
    if rows == [] then []
    else
      var last := mapping(rows[|rows| - 1]);
      ItemsOf(rows[..|rows| - 1], mapping) + (if last.Item? then [last.item] else [])
  }

  function OmittedFor<R, T>(rows: seq<R>, mapping: R -> MapResult<T>, reason: OmitReason): nat {
    if rows == [] then 0
    else
      var last := mapping(rows[|rows| - 1]);
      OmittedFor(rows[..|rows| - 1], mapping, reason) + (if last.Omitted? && last.reason == reason then 1 else 0)
  }

  /** Row by row, in the order of the rows: an item is added at the end, an omission to the count of its reason. */
  lemma OneRowMore<R, T>(rows: seq<R>, row: R, mapping: R -> MapResult<T>, reason: OmitReason)
    ensures ItemsOf([], mapping) == [] && OmittedFor([], mapping, reason) == 0
    ensures ItemsOf(rows + [row], mapping) == ItemsOf(rows, mapping) + (match mapping(row) case Item(item) => [item] case Omitted(_) => [])
    ensures OmittedFor(rows + [row], mapping, reason) == OmittedFor(rows, mapping, reason) + if mapping(row) == Omitted(reason) then 1 else 0
  {
    assert (rows + [row])[..|rows|] == rows;
  }

  ghost predicate Tallied<R, T>(omitted: map<OmitReason, nat>, rows: seq<R>, mapping: R -> MapResult<T>) {
    forall reason :: OmittedFor(rows, mapping, reason) == if reason in omitted then omitted[reason] else 0
  }

  method CollectFeed<R, T>(rows: seq<R>, mapping: R -> MapResult<T>) returns (result: FeedResult<T>)
    ensures result.items == ItemsOf(rows, mapping)
    ensures Tallied(result.omitted, rows, mapping)
    ensures forall reason | reason in result.omitted :: result.omitted[reason] > 0
    ensures |result.items| + OmittedTotal(result.omitted) == |rows|
  {
    result := FeedResult([], map[]);
    for i := 0 to |rows|
      invariant result.items == ItemsOf(rows[..i], mapping)
      invariant Tallied(result.omitted, rows[..i], mapping)
      invariant forall reason | reason in result.omitted :: result.omitted[reason] > 0
    {
      assert rows[..i + 1][..i] == rows[..i];
      var mapped := mapping(rows[i]);
      match mapped
      case Item(item) => result := result.(items := result.items + [item]);
      case Omitted(reason) =>
        var before := if reason in result.omitted then result.omitted[reason] else 0;
        result := result.(omitted := result.omitted[reason := before + 1]);
    }
    assert rows[..|rows|] == rows;
    NoRowLost(rows, mapping);
  }

  function CountFor(omitted: map<OmitReason, nat>, reason: OmitReason): nat {
    if reason in omitted then omitted[reason] else 0
  }

  function OmittedTotal(omitted: map<OmitReason, nat>): nat {
    CountFor(omitted, MissingStatus) + CountFor(omitted, MissingStage)
    + CountFor(omitted, MissingValue) + CountFor(omitted, MissingProbability)
  }

  /** Every row is an item or is counted under one reason. */
  lemma {:induction false} NoRowLost<R, T>(rows: seq<R>, mapping: R -> MapResult<T>)
    ensures |ItemsOf(rows, mapping)| + OmittedFor(rows, mapping, MissingStatus) + OmittedFor(rows, mapping, MissingStage)
          + OmittedFor(rows, mapping, MissingValue) + OmittedFor(rows, mapping, MissingProbability) == |rows|
    decreases |rows|
  {
    if rows != [] {
      NoRowLost(rows[..|rows| - 1], mapping);
    }
  }

  // ---- Opportunities ------------------------------------------------------------------------

  datatype OpportunityItem = OpportunityItem(
    id: string,
    stage: string,
    value: real,
    probability: real,
    customerId: Option<string>,
    expectedCloseAt: Option<int>,
    closedAt: Option<int>)

  /** A text of blanks only reads as none. */
  function NonEmpty(text: Option<string>): Option<string> {
    if text.None? || Trim(text.value, BlankChar) == "" then None else Some(Trim(text.value, BlankChar))
  }

  function Percent(value: Option<int>): Option<int> {
    if value.Some? && 0 <= value.value <= 100 then value else None
  }

  function StageOf(row: Opportunity): Option<string> {
    if row.status == "won" then Some("closed_won")
    else if row.status == "lost" then Some("closed_lost")
    else NonEmpty(row.stageName)
  }

  function ProbabilityOf(row: Opportunity): Option<real> {
    if row.status == "won" then Some(1.0)
    else if row.status == "lost" then Some(0.0)
    else
      var pct := if Percent(row.probability).Some? then Percent(row.probability) else Percent(row.stageProbability);
      if pct.None? then None else Some(pct.value as real / 100.0)
  }

  /** The contact, when it is a customer. */
  function CustomerOf(row: Opportunity, customers: set<string>): Option<string> {
    if row.contactId.GetOr("") != "" && row.contactId.value in customers then row.contactId else None
  }

  function ToOpportunity(customers: set<string>): Opportunity -> MapResult<OpportunityItem> {
    (row: Opportunity) =>
      if StageOf(row).None? then Omitted(MissingStage)
      else if row.value.None? then Omitted(MissingValue)
      else if ProbabilityOf(row).None? then Omitted(MissingProbability)
      else Item(OpportunityItem(row.id, StageOf(row).value, row.value.value, ProbabilityOf(row).value,
                                CustomerOf(row, customers), row.expectedCloseDate, RecordedCloseTime(row)))
  }

  predicate InPercent(value: Option<int>) {
    value.Some? && 0 <= value.value <= 100
  }

  /** An open deal shows its trimmed stage name, and its own probability or else that of the stage. */
  ghost predicate OpenDeal(row: Opportunity, item: OpportunityItem) {
    && row.stageName.Some? && item.stage == Trim(row.stageName.value, BlankChar)
    && (if InPercent(row.probability) then item.probability == row.probability.value as real / 100.0
        else InPercent(row.stageProbability) && item.probability == row.stageProbability.value as real / 100.0)
  }

  /** A reported opportunity has a probability between 0 and 1, at an end exactly as its stage says it closed; only
      customers are named; and a closed one is left out for its value alone. */
  lemma MappedOpportunity(row: Opportunity, customers: set<string>)
    ensures var m := ToOpportunity(customers)(row);
            && (m.Item? ==> 0.0 <= m.item.probability <= 1.0 && m.item.stage != "")
            && (m.Item? ==> m.item.id == row.id && Some(m.item.value) == row.value && m.item.expectedCloseAt == row.expectedCloseDate)
            && (m.Item? ==> m.item.customerId == row.contactId || m.item.customerId == None)
            && (m.Item? ==>
                  (m.item.customerId.Some? <==> row.contactId.Some? && row.contactId.value != "" && row.contactId.value in customers))
            && (m.Item? && row.status == "won" ==> m.item.stage == "closed_won" && m.item.probability == 1.0 && m.item.closedAt == row.wonAt)
            && (m.Item? && row.status == "lost" ==> m.item.stage == "closed_lost" && m.item.probability == 0.0)
            && (m.Item? && row.status != "won" ==> m.item.closedAt == None)
            && (m.Item? && !IsClosed(row.status) ==> OpenDeal(row, m.item))
            && (!IsClosed(row.status) ==>
                  (m == Omitted(MissingProbability) <==>
                     (NonEmpty(row.stageName).Some? && row.value.Some? && !InPercent(row.probability) && !InPercent(row.stageProbability))))
            && (IsClosed(row.status) && m.Omitted? ==> m.reason == MissingValue && row.value.None?)
            && (m.Omitted? ==> m.reason != MissingStatus)
  {
  }

  /** An open opportunity lacks a stage exactly when its stage name is missing or blank throughout. */
  lemma StageMissingExactly(row: Opportunity, customers: set<string>)
    ensures ToOpportunity(customers)(row) == Omitted(MissingStage) <==>
              !IsClosed(row.status)
              && (row.stageName.None? || forall i | 0 <= i < |row.stageName.value| :: BlankChar(row.stageName.value[i]))
  {
    if row.stageName.Some? { TrimEmpty(row.stageName.value, BlankChar); }
    hide Trim;
  }

  /** `customers` is what the customer query finds among the contacts of the period. */
  method ListOpportunities(rows: seq<Opportunity>, period: Period, customers: set<string>) returns (result: FeedResult<OpportunityItem>)
    ensures var inPeriod := Filter(rows, InPeriod(period));
            && result.items == ItemsOf(inPeriod, ToOpportunity(customers))
            && Tallied(result.omitted, inPeriod, ToOpportunity(customers))
            && |result.items| + OmittedTotal(result.omitted) == |inPeriod|
  {
    var fetched := Filter(rows, Matching(period));
    var inPeriod := Filter(fetched, InPeriod(period));
    PrefilterIsExact(rows, period);
    result := CollectFeed(inPeriod, ToOpportunity(customers));
  }
}
