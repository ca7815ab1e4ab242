/** What a billing event's stream entry says: its fields, and whether there is a handler for it. */
module BillingEntries {
  import opened Options

  /** Keys and values in turn. */
  type Fields = seq<string>

  datatype Event = Event(eventType: string, source: string, correlationId: string, timestamp: string, payload: string)

  /** The event types with a handler, and which texts parse as JSON. */
  datatype Config = Config(handlers: set<string>, parses: string -> bool)

  function ValueAt(fields: Fields, pair: nat): string
    requires 2 * pair < |fields|
  {
    if 2 * pair + 1 < |fields| then fields[2 * pair + 1] else ""
  }

  /** The value of the last of the first `pairs` pairs with this key. */
  function LastValue(fields: Fields, key: string, pairs: nat): Option<string>
    requires 2 * pairs <= |fields| + 1
  {
    if pairs == 0 then None
    else if fields[2 * (pairs - 1)] == key then Some(ValueAt(fields, pairs - 1))
    else LastValue(fields, key, pairs - 1)
  }

  function Field(fields: Fields, key: string): string {
    LastValue(fields, key, (|fields| + 1) / 2).GetOr("")
  }

  function Parsed(cfg: Config, fields: Fields): Option<Event> {
    var payload := Field(fields, "payload");
    if payload != "" && !cfg.parses(payload) then None
    else Some(Event(Field(fields, "event_type"), Field(fields, "source"), Field(fields, "correlation_id"),
                    Field(fields, "timestamp"), if payload == "" then "{}" else payload))
  }

  /** Acknowledged without a handler being called. */
  predicate Dropped(cfg: Config, fields: Fields) {
    var event := Parsed(cfg, fields);
    event.None? || event.value.eventType !in cfg.handlers
  }

  // ---- What an entry says ----------------------------------------------------------

  /** Pair `k` is the last one with this key. */
  ghost predicate LastPair(fields: Fields, key: string, k: nat) {
    && 2 * k < |fields| && fields[2 * k] == key
    && forall j: nat | k < j && 2 * j < |fields| :: fields[2 * j] != key
  }

  /** `value` is what the entry gives for the key: that of its last pair, whose value may be missing at the very end,
      or nothing but the empty text when no pair has the key. */
  ghost predicate Says(fields: Fields, key: string, value: string) {
    && (forall k: nat | LastPair(fields, key, k) :: value == if 2 * k + 1 < |fields| then fields[2 * k + 1] else "")
    && ((forall k: nat | 2 * k < |fields| :: fields[2 * k] != key) ==> value == "")
  }

  /** The entry's payload is missing, empty or a JSON text. */
  ghost predicate PayloadReads(cfg: Config, fields: Fields) {
    forall payload | Says(fields, "payload", payload) :: payload == "" || cfg.parses(payload)
  }

  /** The entry has an event, with a handler for its type. */
  ghost predicate HasHandler(cfg: Config, fields: Fields) {
    PayloadReads(cfg, fields) && forall eventType | Says(fields, "event_type", eventType) :: eventType in cfg.handlers
  }

  /** The event names what the entry gives for each of the five keys. */
  ghost predicate SaysEvent(fields: Fields, event: Event) {
    && Says(fields, "event_type", event.eventType)
    && Says(fields, "source", event.source)
    && Says(fields, "correlation_id", event.correlationId)
    && Says(fields, "timestamp", event.timestamp)
    && (Says(fields, "payload", event.payload) || (Says(fields, "payload", "") && event.payload == "{}"))
    && event.payload != ""
  }

  lemma {:induction false} LastPairOf(fields: Fields, key: string, pairs: nat)
    requires 2 * pairs <= |fields| + 1
    ensures match LastValue(fields, key, pairs)
            case None => forall k: nat | k < pairs :: fields[2 * k] != key
            case Some(value) => exists k: nat | k < pairs ::
              && fields[2 * k] == key && value == ValueAt(fields, k)
              && forall j: nat | k < j < pairs :: fields[2 * j] != key
  {
    if pairs > 0 && fields[2 * (pairs - 1)] != key {
      LastPairOf(fields, key, pairs - 1);
    }
  }

  lemma FieldSaid(fields: Fields, key: string)
    ensures forall value :: Says(fields, key, value) <==> value == Field(fields, key)
  {
    var pairs := (|fields| + 1) / 2;
    LastPairOf(fields, key, pairs);
    var found := LastValue(fields, key, pairs);
    hide LastValue;
    if found.Some? {
      var k: nat :| k < pairs && fields[2 * k] == key && found.value == ValueAt(fields, k)
        && forall j: nat | k < j < pairs :: fields[2 * j] != key;
      assert LastPair(fields, key, k);
      assert forall j: nat | LastPair(fields, key, j) :: !(j < k) && !(k < j);
    } else {
      forall k: nat | 2 * k < |fields| ensures fields[2 * k] != key {
        assert k < pairs;
      }
    }
  }

  /** An entry is parsed exactly when its payload reads, and then into what it says. */
  lemma ParsedSays(cfg: Config, fields: Fields)
    ensures Parsed(cfg, fields).Some? <==> PayloadReads(cfg, fields)
    ensures Parsed(cfg, fields).Some? ==> SaysEvent(fields, Parsed(cfg, fields).value)
  {
    FieldSaid(fields, "event_type");
    FieldSaid(fields, "source");
    FieldSaid(fields, "correlation_id");
    FieldSaid(fields, "timestamp");
    FieldSaid(fields, "payload");
    hide Field, Says;
  }

  /** What is acknowledged without a handler: entries whose payload does not read or whose last event type has none. */
  lemma DroppedExactly(cfg: Config, fields: Fields)
    ensures Dropped(cfg, fields) <==> !HasHandler(cfg, fields)
  {
    ParsedSays(cfg, fields);
    FieldSaid(fields, "event_type");
    hide Parsed, Field, PayloadReads;
    var event := Parsed(cfg, fields);
    if event.Some? {
      EventTypeSaid(fields, event.value);
    }
    hide Says, SaysEvent;
  }

  lemma EventTypeSaid(fields: Fields, event: Event)
    requires SaysEvent(fields, event)
    ensures Says(fields, "event_type", event.eventType)
  {
  }

  // ---- Reading it ------------------------------------------------------------------

  /** `values` holds the fields of the first pairs. */
  ghost predicate Collected(values: map<string, string>, fields: Fields, pairs: nat)
    requires 2 * pairs <= |fields| + 1
  {
    forall key | key != "" ::
      LastValue(fields, key, pairs) == if key in values then Some(values[key]) else None
  }

  lemma CollectNext(values: map<string, string>, fields: Fields, pairs: nat)
    requires 2 * pairs < |fields| && Collected(values, fields, pairs)
    ensures var key := fields[2 * pairs];
            Collected(if key != "" then values[key := ValueAt(fields, pairs)] else values, fields, pairs + 1)
  {
  }

  /** Of several pairs with one key the last counts; a missing key reads as empty. */
  lemma {:induction false} LastPairWins(fields: Fields, key: string, pairs: nat, k: nat)
    requires k < pairs && 2 * pairs <= |fields| + 1 && fields[2 * k] == key
    requires forall j: nat | k < j < pairs :: fields[2 * j] != key
    ensures LastValue(fields, key, pairs) == Some(ValueAt(fields, k))
    decreases pairs
  {
    if k < pairs - 1 {
      assert fields[2 * (pairs - 1)] != key;
      LastPairWins(fields, key, pairs - 1, k);
    }
  }

  function Lookup(values: map<string, string>, key: string): string {
    if key in values then values[key] else ""
  }

  lemma CollectedAll(values: map<string, string>, fields: Fields)
    requires Collected(values, fields, (|fields| + 1) / 2)
    ensures forall key | key != "" :: Lookup(values, key) == Field(fields, key)
  {
    hide LastValue;
  }

  /** The map the loop over keys and values builds. */
  method CollectFields(fields: Fields) returns (values: map<string, string>)
    ensures forall key | key != "" :: Lookup(values, key) == Field(fields, key)
  {
    values := map[];
    var i := 0;
    assert Collected(values, fields, 0);
    hide Collected, LastValue, Lookup, Field;
    while i < |fields|
      invariant i % 2 == 0 && i <= |fields| + 1
      invariant Collected(values, fields, i / 2)
    {
      var key := fields[i];
      CollectNext(values, fields, i / 2);
      if key != "" {
        values := values[key := if i + 1 < |fields| then fields[i + 1] else ""];
      }
      i := i + 2;
    }
    assert i / 2 == (|fields| + 1) / 2;
    CollectedAll(values, fields);
  }

  method ParseEntry(cfg: Config, fields: Fields) returns (event: Option<Event>)
    ensures event == Parsed(cfg, fields)
    ensures event.Some? <==> PayloadReads(cfg, fields)
    ensures event.Some? ==> SaysEvent(fields, event.value)
  {
    ParsedSays(cfg, fields);
    hide PayloadReads, SaysEvent;
    var values := CollectFields(fields);
    hide Field, Lookup;
    var payload := Lookup(values, "payload");
    if payload != "" && !cfg.parses(payload) {
      return None;
    }
    event := Some(Event(Lookup(values, "event_type"), Lookup(values, "source"), Lookup(values, "correlation_id"),
                        Lookup(values, "timestamp"), if payload == "" then "{}" else payload));
  }
}
