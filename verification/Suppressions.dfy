/** The suppression list: who must not be written to, on one channel or on all. */
module Suppressions {
  import opened Options
  import opened ConsentStates
  import opened ConsentLedger

  datatype SuppressionChannel = AllChannels | One(channel: Channel)

  datatype SuppressionEntry = SuppressionEntry(id: nat, identifier: string, channel: SuppressionChannel, reason: string)

  /** Does the entry speak about this identifier on this channel? */
  predicate Covers(entry: SuppressionEntry, identifier: string, channel: SuppressionChannel) {
    entry.identifier == identifier && (entry.channel == AllChannels || entry.channel == channel)
  }

  function Covering(entries: seq<SuppressionEntry>, identifier: string, channel: SuppressionChannel): seq<SuppressionEntry> {
    if entries == [] then []
    else
      Covering(entries[..|entries| - 1], identifier, channel) +
      (if Covers(entries[|entries| - 1], identifier, channel) then [entries[|entries| - 1]] else [])
  }

  function ReasonsOf(entries: seq<SuppressionEntry>): seq<string> {
    seq(|entries|, i requires 0 <= i < |entries| => entries[i].reason)
  }

  ghost predicate UniqueSuppressions(entries: seq<SuppressionEntry>) {
    forall i, j | 0 <= i < j < |entries| ::
      && entries[i].id != entries[j].id
      && (entries[i].identifier != entries[j].identifier || entries[i].channel != entries[j].channel)
  }

  lemma {:induction false} CoveringExact(entries: seq<SuppressionEntry>, identifier: string, channel: SuppressionChannel,
                                         entry: SuppressionEntry)
    ensures entry in Covering(entries, identifier, channel) <==>
              entry in entries && entry.identifier == identifier && (entry.channel == AllChannels || entry.channel == channel)
  {
    if entries != [] {
      var n := |entries| - 1;
      CoveringExact(entries[..n], identifier, channel, entry);
      assert entries == entries[..n] + [entries[n]];
    }
  }

  lemma {:induction false} NothingCovered(entries: seq<SuppressionEntry>, channel: SuppressionChannel)
    requires forall i | 0 <= i < |entries| :: entries[i].identifier != ""
    ensures Covering(entries, "", channel) == []
  {
    if entries != [] { NothingCovered(entries[..|entries| - 1], channel); }
  }

  /** The entry of exactly this identifier and channel. */
  function FindEntry(entries: seq<SuppressionEntry>, identifier: string, channel: SuppressionChannel): (r: Option<nat>)
    ensures r.Some? ==> r.value < |entries| && entries[r.value].identifier == identifier && entries[r.value].channel == channel
    ensures r.None? ==> forall i | 0 <= i < |entries| :: entries[i].identifier != identifier || entries[i].channel != channel
  {
    if entries == [] then None
    else
      var n := |entries| - 1;
      if entries[n].identifier == identifier && entries[n].channel == channel then Some(n)
      else FindEntry(entries[..n], identifier, channel)
  }

  /** An entry already there stays as it is; an identifier of blanks adds nothing. */
  function AddEntry(entries: seq<SuppressionEntry>, id: nat, identifier: string, channel: SuppressionChannel, reason: string)
    : seq<SuppressionEntry>
  {
    var normalized := Normalize(identifier);
    if normalized == "" || FindEntry(entries, normalized, channel).Some? then entries
    else entries + [SuppressionEntry(id, normalized, channel, reason)]
  }

  function RemoveEntry(entries: seq<SuppressionEntry>, id: nat): seq<SuppressionEntry> {
    if entries == [] then []
    else if entries[0].id == id then entries[1..]
    else [entries[0]] + RemoveEntry(entries[1..], id)
  }

  lemma {:induction false} RemovedAt(entries: seq<SuppressionEntry>, id: nat, i: nat)
    requires i < |entries| && entries[i].id == id && forall j | 0 <= j < i :: entries[j].id != id
    ensures RemoveEntry(entries, id) == entries[..i] + entries[i + 1..]
    decreases i
  {
    if i > 0 {
      RemovedAt(entries[1..], id, i - 1);
      assert entries == [entries[0]] + entries[1..];
    }
  }

  lemma {:induction false} RemovedNone(entries: seq<SuppressionEntry>, id: nat)
    requires forall j | 0 <= j < |entries| :: entries[j].id != id
    ensures RemoveEntry(entries, id) == entries
    decreases |entries|
  {
    if entries != [] {
      RemovedNone(entries[1..], id);
    }
  }

  lemma CutAt(entries: seq<SuppressionEntry>, i: nat)
    requires i < |entries|
    ensures var r := entries[..i] + entries[i + 1..];
            && |r| == |entries| - 1
            && (forall j | 0 <= j < |r| :: r[j] == if j < i then entries[j] else entries[j + 1])
            && (forall k | 0 <= k < |entries| && k != i :: entries[k] in r)
  {
    var r := entries[..i] + entries[i + 1..];
    forall k | 0 <= k < |entries| && k != i ensures entries[k] in r {
      assert r[if k < i then k else k - 1] == entries[k];
    }
  }

  /** Cutting out one entry of a list with unique ids removes exactly the entries of its id. */
  lemma RemovedExactly(entries: seq<SuppressionEntry>, i: nat)
    requires UniqueSuppressions(entries) && i < |entries|
    ensures var r := entries[..i] + entries[i + 1..];
            && UniqueSuppressions(r)
            && (forall j | 0 <= j < |r| :: r[j] in entries)
            && (forall e :: e in r <==> e in entries && e.id != entries[i].id)
  {
    CutAt(entries, i);
  }

}
