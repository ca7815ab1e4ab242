/** The billing event consumer as a protocol: consumers of one group, a pending list, a dead-letter stream.

  Every command sent to the stream is a step of its own, so a consumer can stop, and others can move,
  between any two of them. A command may be carried out, carried out with its reply lost, or refused.
  Entries are named by their position in the stream.
 */
module BillingStream {
  import opened BillingEntries
  import opened Options

  const BATCH_SIZE: nat := 10
  const CLAIM_COUNT: nat := 50
  const MAX_RETRIES: nat := 3
  const STALE_MS: nat := 60_000

  // ---- State -------------------------------------------------------------------------

  /** A row of the pending list: how often delivered or claimed, and when last. */
  datatype Delivery = Delivery(count: nat, at: nat)

  datatype DeadLetter = DeadLetter(originalId: nat, deliveryCount: nat, failedAt: nat)

  /** The next command of a consumer about the entry at the head of its batch. */
  datatype Phase =
    | Look                // parse it and find a handler
    | Skip                // acknowledge it unhandled
    | Call                // call the handler
    | Done                // acknowledge it handled
    | Count               // ask how often it was delivered
    | Bury(count: nat)    // add it to the dead letters
    | Close               // acknowledge it as a dead letter

  /** A running consumer: the rest of its batch, and where it stands. */
  datatype Worker = Worker(todo: seq<nat>, phase: Phase)

  /** `delivered`, `acked`, `called` and `handled` record history: when each entry was handed out,
      which were acknowledged, and the handler calls and successes in order. */
  datatype Stream = Stream(
    log: seq<Fields>,
    next: nat,
    pending: map<nat, Delivery>,
    dead: seq<DeadLetter>,
    workers: map<nat, Worker>,
    now: nat,
    delivered: map<nat, nat>,
    acked: set<nat>,
    called: seq<nat>,
    handled: seq<nat>)

  datatype Outcome = Replied | ReplyLost | Refused

  datatype Step =
    | Append(fields: Fields)
    | Wait(ms: nat)
    | Start(w: nat, claimed: set<nat>)
    | Crash(w: nat)
    | Read(w: nat, outcome: Outcome)
    | Inspect(w: nat)
    | Handle(w: nat, ok: bool)
    | Ack(w: nat, outcome: Outcome)
    | Check(w: nat, outcome: Outcome)
    | AddDead(w: nat, outcome: Outcome)

  const EMPTY := Stream([], 0, map[], [], map[], 0, map[], {}, [], [])

  const IDLE := Worker([], Look)

  // ---- Commands ----------------------------------------------------------------------

  predicate Busy(s: Stream, w: nat) {
    w in s.workers && s.workers[w].todo != []
  }

  function Head(s: Stream, w: nat): nat
    requires Busy(s, w)
  {
    s.workers[w].todo[0]
  }

  function Put(s: Stream, w: nat, worker: Worker): Stream {
    s.(workers := s.workers[w := worker])
  }

  function At(s: Stream, w: nat, phase: Phase): Stream
    requires Busy(s, w)
  {
    Put(s, w, s.workers[w].(phase := phase))
  }

  function Advance(s: Stream, w: nat): Stream
    requires Busy(s, w)
  {
    Put(s, w, Worker(s.workers[w].todo[1..], Look))
  }

  /** XAUTOCLAIM takes some entries that have been pending for long enough; their counts go up. */
  predicate Claimable(s: Stream, claimed: set<nat>) {
    && |claimed| <= CLAIM_COUNT
    && forall id | id in claimed :: id in s.pending && s.now >= s.pending[id].at + STALE_MS
  }

  function Claim(s: Stream, claimed: set<nat>): Stream {
    s.(pending := map id | id in s.pending ::
         if id in claimed then Delivery(s.pending[id].count + 1, s.now) else s.pending[id])
  }

  function BatchEnd(s: Stream): nat {
    if |s.log| - s.next > BATCH_SIZE then s.next + BATCH_SIZE else |s.log|
  }

  /** XREADGROUP with `>` hands out entries never handed out before. */
  function HandOut(s: Stream): Stream
    requires s.next <= |s.log|
  {
    s.(next := BatchEnd(s),
       pending := s.pending + map id | id in Batch(s) :: Delivery(1, s.now),
       delivered := s.delivered + map id | id in Batch(s) :: s.now)
  }

  function Batch(s: Stream): seq<nat>
    requires s.next <= |s.log|
  {
    seq(BatchEnd(s) - s.next, i requires 0 <= i => s.next + i)
  }

  function XAck(s: Stream, id: nat): Stream {
    s.(pending := s.pending - {id}, acked := s.acked + {id})
  }

  function XAdd(s: Stream, id: nat, count: nat): Stream {
    s.(dead := s.dead + [DeadLetter(id, count, s.now)])
  }

  function Next(cfg: Config, s: Stream, step: Step): Stream
    requires Readable(s)
  {
    match step
    case Append(fields) => s.(log := s.log + [fields])
    case Wait(ms) => s.(now := s.now + ms)
    case Start(w, claimed) =>
      if w in s.workers || !Claimable(s, claimed) then s else Put(Claim(s, claimed), w, IDLE)
    case Crash(w) => s.(workers := s.workers - {w})
    case Read(w, outcome) =>
      if w !in s.workers || Busy(s, w) || outcome.Refused? then s
      else if outcome.ReplyLost? then HandOut(s)
      else Put(HandOut(s), w, Worker(Batch(s), Look))
    case Inspect(w) =>
      if !Busy(s, w) || s.workers[w].phase != Look then s
      else At(s, w, if Dropped(cfg, s.log[Head(s, w)]) then Skip else Call)
    case Handle(w, ok) =>
      if !Busy(s, w) || s.workers[w].phase != Call then s
      else At(s, w, if ok then Done else Count)
           .(called := s.called + [Head(s, w)], handled := if ok then s.handled + [Head(s, w)] else s.handled)
    case Ack(w, outcome) =>
      if !Busy(s, w) || s.workers[w].phase !in {Skip, Done, Close} then s
      else AfterAck(if outcome.Refused? then s else XAck(s, Head(s, w)), w, outcome)
    case Check(w, outcome) =>
      if !Busy(s, w) || s.workers[w].phase != Count then s
      else
        var id := Head(s, w);
        if outcome.Replied? && id in s.pending && s.pending[id].count >= MAX_RETRIES
        then At(s, w, Bury(s.pending[id].count))
        else Advance(s, w)
    case AddDead(w, outcome) =>
      if !Busy(s, w) || !s.workers[w].phase.Bury? then s
      else
        var t := if outcome.Refused? then s else XAdd(s, Head(s, w), s.workers[w].phase.count);
        if outcome.Replied? then At(t, w, Close) else Advance(t, w)
  }

  /** A failed acknowledgment: of a skipped entry it gives up the batch; of a handled one it counts as
      a failed handler; of a dead letter it is ignored. */
  function AfterAck(s: Stream, w: nat, outcome: Outcome): Stream
    requires Busy(s, w)
  {
    if outcome.Replied? || s.workers[w].phase == Close then Advance(s, w)
    else if s.workers[w].phase == Done then At(s, w, Count)
    else Put(s, w, IDLE)
  }

  /** The group's position and every batch lie inside the stream. */
  ghost predicate Readable(s: Stream) {
    && s.next <= |s.log|
    && forall w, k: nat | w in s.workers && k < |s.workers[w].todo| :: s.workers[w].todo[k] < s.next
  }

  lemma ReadReadable(cfg: Config, s: Stream, w: nat, outcome: Outcome)
    requires Readable(s)
    ensures Readable(Next(cfg, s, Read(w, outcome)))
  {
    var t := Next(cfg, s, Read(w, outcome));
    assert forall k: nat | k < |Batch(s)| :: Batch(s)[k] < BatchEnd(s);
    hide Batch;
  }

  /** What is left of a batch is the batch, its tail, or nothing. */
  ghost predicate Shrinks(s: Stream, t: Stream, v: nat) {
    v in t.workers ==>
      || t.workers[v].todo == []
      || (v in s.workers && t.workers[v].todo == s.workers[v].todo)
      || (Busy(s, v) && t.workers[v].todo == s.workers[v].todo[1..])
  }

  lemma AckShrinks(cfg: Config, s: Stream, step: Step, v: nat)
    requires Readable(s) && step.Ack?
    ensures Shrinks(s, Next(cfg, s, step), v)
  {
    hide Readable;
  }

  lemma GivingUpShrinks(cfg: Config, s: Stream, step: Step, v: nat)
    requires Readable(s) && (step.Check? || step.AddDead?)
    ensures Shrinks(s, Next(cfg, s, step), v)
  {
    hide Readable;
  }

  lemma WorkingShrinks(cfg: Config, s: Stream, step: Step, v: nat)
    requires Readable(s) && !step.Read? && !step.Ack? && !step.Check? && !step.AddDead?
    ensures Shrinks(s, Next(cfg, s, step), v)
  {
    hide Dropped, Claimable, HandOut, Readable;
  }

  lemma TodoShrinks(cfg: Config, s: Stream, step: Step, v: nat)
    requires Readable(s) && !step.Read?
    ensures Shrinks(s, Next(cfg, s, step), v)
  {
    hide Next, Shrinks, Readable;
    if step.Ack? {
      AckShrinks(cfg, s, step, v);
    } else if step.Check? || step.AddDead? {
      GivingUpShrinks(cfg, s, step, v);
    } else {
      WorkingShrinks(cfg, s, step, v);
    }
  }

  lemma LogShape(cfg: Config, s: Stream, step: Step)
    requires Readable(s) && !step.Read?
    ensures var t := Next(cfg, s, step); t.next == s.next && |t.log| >= |s.log|
  {
    hide Dropped, Claimable, HandOut, Readable;
  }

  lemma NextReadable(cfg: Config, s: Stream, step: Step)
    requires Readable(s)
    ensures Readable(Next(cfg, s, step))
  {
    if step.Read? {
      ReadReadable(cfg, s, step.w, step.outcome);
    } else {
      LogShape(cfg, s, step);
      var t := Next(cfg, s, step);
      hide Next;
      forall v, k: nat | v in t.workers && k < |t.workers[v].todo| ensures t.workers[v].todo[k] < t.next {
        TodoShrinks(cfg, s, step, v);
      }
    }
  }

  function Run(cfg: Config, s: Stream, steps: seq<Step>): (t: Stream)
    requires Readable(s)
    ensures Readable(t)
    decreases |steps|
  {
    if steps == [] then s
    else
      NextReadable(cfg, s, steps[0]);
      Run(cfg, Next(cfg, s, steps[0]), steps[1..])
  }

  // ---- What every step keeps -----------------------------------------------------------

  /** Every entry is exactly one of: not handed out, pending, acknowledged. */
  ghost predicate Partition(s: Stream) {
    && (forall id | id in s.pending :: id < s.next && id !in s.acked)
    && (forall id | id in s.acked :: id < s.next)
    && (forall id: nat | id < s.next :: id in s.pending || id in s.acked)
  }

  /** Each claim takes another `STALE_MS`. */
  ghost predicate Timed(s: Stream) {
    && (forall id: nat :: id in s.delivered <==> id < s.next)
    && (forall id | id in s.delivered :: s.delivered[id] <= s.now)
    && forall id | id in s.pending && id in s.delivered ::
         && s.pending[id].count >= 1 && s.pending[id].at <= s.now
         && s.pending[id].at >= s.delivered[id] + STALE_MS * (s.pending[id].count - 1)
  }

  ghost predicate InDead(s: Stream, id: nat) {
    exists k: nat | k < |s.dead| :: s.dead[k].originalId == id
  }

  /** Why an entry may be acknowledged. */
  ghost predicate Settled(cfg: Config, s: Stream, id: nat)
    requires id < |s.log|
  {
    id in s.handled || Dropped(cfg, s.log[id]) || InDead(s, id)
  }

  ghost predicate Explained(cfg: Config, s: Stream) {
    forall id | id in s.acked && id < |s.log| :: Settled(cfg, s, id)
  }

  /** A dead letter and the history it speaks of. */
  ghost predicate LetterSound(s: Stream, letter: DeadLetter) {
    && letter.deliveryCount >= MAX_RETRIES
    && letter.originalId in s.called
    && letter.originalId in s.delivered
    && letter.failedAt >= s.delivered[letter.originalId] + STALE_MS * (letter.deliveryCount - 1)
  }

  ghost predicate DeadSound(cfg: Config, s: Stream) {
    && (forall i: nat, j: nat | i < j < |s.dead| :: s.dead[i].originalId != s.dead[j].originalId)
    && forall k: nat | k < |s.dead| ::
      LetterSound(s, s.dead[k])
  }

  ghost predicate NoRepeats(ids: seq<nat>) {
    forall i, j | 0 <= i < j < |ids| :: ids[i] != ids[j]
  }

  /** The handler is called at most once for an entry, and only for one that has a handler. */
  ghost predicate CalledOnce(cfg: Config, s: Stream) {
    && NoRepeats(s.called)
    && (forall id | id in s.called :: id < s.next && id < |s.log| && !Dropped(cfg, s.log[id]))
    && (forall id | id in s.handled :: id in s.called)
  }

  /** What is known of a consumer about to send the command its phase names. */
  ghost predicate PhaseSound(cfg: Config, s: Stream, id: nat, phase: Phase)
    requires id < |s.log| && id in s.delivered
  {
    match phase
    case Look => id !in s.called
    case Skip => id !in s.called && Dropped(cfg, s.log[id])
    case Call => id !in s.called && !Dropped(cfg, s.log[id])
    case Done => id in s.called && id in s.handled && !InDead(s, id)
    case Count => id in s.called && !InDead(s, id)
    case Bury(count) =>
      && id in s.called && !InDead(s, id) && count >= MAX_RETRIES
      && s.now >= s.delivered[id] + STALE_MS * (count - 1)
    case Close => id in s.called && InDead(s, id)
  }

  ghost predicate WorkerSound(cfg: Config, s: Stream, worker: Worker) {
    var todo := worker.todo;
    && NoRepeats(todo)
    && (todo == [] ==> worker.phase == Look)
    && (forall k: nat | 1 <= k < |todo| :: todo[k] !in s.called)
    && (todo != [] && todo[0] < |s.log| && todo[0] in s.delivered ==> PhaseSound(cfg, s, todo[0], worker.phase))
  }

  ghost predicate WorkersSound(cfg: Config, s: Stream) {
    forall w | w in s.workers :: WorkerSound(cfg, s, s.workers[w])
  }

  /** An entry is in the hands of one consumer at most. */
  ghost predicate Alone(s: Stream) {
    forall v, w, id | v in s.workers && w in s.workers && id in s.workers[v].todo && id in s.workers[w].todo :: v == w
  }

  ghost predicate Sound(cfg: Config, s: Stream) {
    && Readable(s) && Partition(s) && Timed(s) && Explained(cfg, s) && DeadSound(cfg, s)
    && CalledOnce(cfg, s) && WorkersSound(cfg, s) && Alone(s)
  }

  /** Nothing recorded is ever taken back. */
  ghost predicate Extends(s: Stream, t: Stream) {
    && s.log <= t.log && s.next <= t.next && s.now <= t.now && s.acked <= t.acked
    && s.called <= t.called && s.handled <= t.handled && s.dead <= t.dead
    && forall id | id in s.delivered :: id in t.delivered && t.delivered[id] == s.delivered[id]
  }

  lemma HandOutExtends(s: Stream)
    requires Readable(s) && Timed(s)
    ensures Extends(s, HandOut(s))
  {
    BatchMembers(s);
    hide Batch, Readable;
  }

  lemma ReadExtends(cfg: Config, s: Stream, w: nat, outcome: Outcome)
    requires Readable(s) && Timed(s)
    ensures Extends(s, Next(cfg, s, Read(w, outcome)))
  {
    HandOutExtends(s);
    hide HandOut, Batch, Readable, Timed;
  }

  lemma OthersExtend(cfg: Config, s: Stream, step: Step)
    requires Readable(s) && !step.Read?
    ensures Extends(s, Next(cfg, s, step))
  {
    hide Dropped, Claimable, HandOut, Batch, Readable;
  }

  lemma NextExtends(cfg: Config, s: Stream, step: Step)
    requires Readable(s) && Timed(s)
    ensures Extends(s, Next(cfg, s, step))
  {
    hide Next, Extends, Timed;
    if step.Read? {
      ReadExtends(cfg, s, step.w, step.outcome);
    } else {
      OthersExtend(cfg, s, step);
    }
  }

  lemma ReadPartition(s: Stream)
    requires Readable(s) && Partition(s)
    ensures Partition(HandOut(s))
  {
    BatchMembers(s);
    hide Batch;
  }

  lemma PartitionByBooks(s: Stream, t: Stream)
    requires Partition(s) && t.next == s.next && t.acked == s.acked && t.pending.Keys == s.pending.Keys
    ensures Partition(t)
  {
    assert forall id :: id in t.pending <==> id in t.pending.Keys;
  }

  lemma OthersPartition(cfg: Config, s: Stream, step: Step)
    requires Readable(s) && Partition(s) && !step.Read?
    ensures Partition(Next(cfg, s, step))
  {
    hide Dropped, Claimable, HandOut, Batch;
  }

  lemma ReadBooks(cfg: Config, s: Stream, w: nat, outcome: Outcome)
    requires Readable(s)
    ensures var t := Next(cfg, s, Read(w, outcome)); var u := HandOut(s);
            || (t.next == s.next && t.acked == s.acked && t.pending == s.pending)
            || (t.next == u.next && t.acked == u.acked && t.pending == u.pending)
  {
    hide HandOut, Batch;
  }

  lemma NextPartition(cfg: Config, s: Stream, step: Step)
    requires Readable(s) && Partition(s)
    ensures Partition(Next(cfg, s, step))
  {
    hide Next, HandOut, Partition;
    var t := Next(cfg, s, step);
    if !step.Read? {
      OthersPartition(cfg, s, step);
    } else {
      ReadPartition(s);
      ReadBooks(cfg, s, step.w, step.outcome);
      if t.next == s.next && t.acked == s.acked && t.pending == s.pending {
        PartitionByBooks(s, t);
      } else {
        PartitionByBooks(HandOut(s), t);
      }
    }
  }

  lemma BatchMembers(s: Stream)
    requires s.next <= |s.log|
    ensures forall id: nat :: id in Batch(s) <==> s.next <= id < BatchEnd(s)
    ensures NoRepeats(Batch(s)) && |Batch(s)| == BatchEnd(s) - s.next
  {
    forall id: nat | s.next <= id < BatchEnd(s) ensures id in Batch(s) {
      assert Batch(s)[id - s.next] == id;
    }
  }

  /** The delivery record does not move, and pending rows at most leave. */
  ghost predicate Undelivered(s: Stream, t: Stream) {
    && t.next == s.next && t.delivered == s.delivered && s.now <= t.now
    && forall id | id in t.pending :: id in s.pending && t.pending[id] == s.pending[id]
  }

  lemma DeliveryEffect(cfg: Config, s: Stream, step: Step)
    requires Readable(s)
    ensures var t := Next(cfg, s, step);
            || Undelivered(s, t)
            || (step.Read? && Undelivered(HandOut(s), t))
            || (step.Start? && Claimable(s, step.claimed) && Undelivered(Claim(s, step.claimed), t))
  {
    hide Dropped, Readable, HandOut, Claim, Claimable;
  }

  lemma UndeliveredTimed(s: Stream, t: Stream)
    requires Timed(s) && Undelivered(s, t)
    ensures Timed(t)
  {
  }

  lemma HandOutTimed(s: Stream)
    requires Readable(s) && Timed(s)
    ensures Timed(HandOut(s))
  {
    BatchMembers(s);
    hide Batch, Readable;
  }

  lemma ClaimTimed(s: Stream, claimed: set<nat>)
    requires Timed(s) && Claimable(s, claimed)
    ensures Timed(Claim(s, claimed))
  {
  }

  lemma {:induction false} NextTimed(cfg: Config, s: Stream, step: Step)
    requires Readable(s) && Timed(s)
    ensures Timed(Next(cfg, s, step))
  {
    hide Next, Timed, HandOut, Claim, Claimable, Undelivered;
    DeliveryEffect(cfg, s, step);
    var t := Next(cfg, s, step);
    if Undelivered(s, t) {
      UndeliveredTimed(s, t);
    } else if step.Read? {
      HandOutTimed(s);
      UndeliveredTimed(HandOut(s), t);
    } else {
      ClaimTimed(s, step.claimed);
      UndeliveredTimed(Claim(s, step.claimed), t);
    }
  }

  lemma OnlyAckAcknowledges(cfg: Config, s: Stream, step: Step)
    requires Readable(s)
    ensures var t := Next(cfg, s, step);
            && (t.acked == s.acked
                || (step.Ack? && Busy(s, step.w) && t.acked == s.acked + {Head(s, step.w)}
                    && s.workers[step.w].phase in {Skip, Done, Close}))
            && (step.Ack? ==> t.log == s.log && t.handled == s.handled && t.dead == s.dead)
  {
    HandOutAcked(s);
    hide Dropped, Readable, HandOut, Batch;
  }

  lemma HandOutAcked(s: Stream)
    requires s.next <= |s.log|
    ensures HandOut(s).acked == s.acked
  {
  }

  lemma NextExplained(cfg: Config, s: Stream, step: Step)
    requires Sound(cfg, s)
    ensures Explained(cfg, Next(cfg, s, step))
  {
    NextExtends(cfg, s, step);
    OnlyAckAcknowledges(cfg, s, step);
    var t := Next(cfg, s, step);
    hide Next, NoRepeats, Partition, DeadSound, CalledOnce, Alone, Dropped;
    forall id | id in t.acked && id < |t.log| ensures Settled(cfg, t, id) {
      if id in s.acked {
        SettledStays(cfg, s, t, id);
      } else {
        HeadSettled(cfg, s, step.w);
        SettledStays(cfg, s, t, id);
      }
    }
  }

  lemma HeadSettled(cfg: Config, s: Stream, w: nat)
    requires Sound(cfg, s) && Busy(s, w) && s.workers[w].phase in {Skip, Done, Close}
    ensures Head(s, w) < |s.log| && Settled(cfg, s, Head(s, w))
  {
    hide Dropped, NoRepeats, Partition, Explained, DeadSound, CalledOnce, Alone;
    assert WorkerSound(cfg, s, s.workers[w]);
  }

  lemma SettledStays(cfg: Config, s: Stream, t: Stream, id: nat)
    requires Extends(s, t) && id < |s.log| && Settled(cfg, s, id)
    ensures Settled(cfg, t, id)
  {
    hide Dropped;
    if InDead(s, id) {
      var k: nat :| k < |s.dead| && s.dead[k].originalId == id;
      assert t.dead[k].originalId == id;
    }
  }

  // ---- Dead letters and handler calls ----------------------------------------------------

  lemma DeadEffect(cfg: Config, s: Stream, step: Step)
    requires Readable(s)
    ensures var t := Next(cfg, s, step);
            || t.dead == s.dead
            || (step.AddDead? && Busy(s, step.w) && s.workers[step.w].phase.Bury?
                && t.dead == XAdd(s, Head(s, step.w), s.workers[step.w].phase.count).dead)
  {
    HandOutHistory(s);
    hide Dropped, Readable, HandOut, Batch, Claimable;
  }

  lemma HandOutHistory(s: Stream)
    requires s.next <= |s.log|
    ensures HandOut(s).dead == s.dead && HandOut(s).called == s.called && HandOut(s).handled == s.handled
    ensures HandOut(s).log == s.log && HandOut(s).workers == s.workers
  {
  }

  lemma LettersStay(cfg: Config, s: Stream, t: Stream)
    requires DeadSound(cfg, s) && Extends(s, t) && t.dead == s.dead
    ensures DeadSound(cfg, t)
  {
    hide Dropped;
  }

  /** What a consumer about to bury knows of the entry. */
  lemma BuryKnows(cfg: Config, s: Stream, w: nat)
    requires Sound(cfg, s) && Busy(s, w) && s.workers[w].phase.Bury?
    ensures !InDead(s, Head(s, w)) && LetterSound(s, DeadLetter(Head(s, w), s.workers[w].phase.count, s.now))
  {
    hide Partition, Explained, DeadSound, CalledOnce, Alone, Dropped, NoRepeats;
    assert WorkerSound(cfg, s, s.workers[w]);
  }

  lemma LetterAdded(cfg: Config, s: Stream, t: Stream, letter: DeadLetter)
    requires DeadSound(cfg, s) && Extends(s, t) && t.dead == s.dead + [letter]
    requires !InDead(s, letter.originalId) && LetterSound(s, letter)
    ensures DeadSound(cfg, t)
  {
    hide Dropped;
    assert forall k: nat | k < |s.dead| :: s.dead[k].originalId != letter.originalId;
  }

  lemma {:induction false} NextDead(cfg: Config, s: Stream, step: Step)
    requires Sound(cfg, s)
    ensures DeadSound(cfg, Next(cfg, s, step))
  {
    NextExtends(cfg, s, step);
    DeadEffect(cfg, s, step);
    var t := Next(cfg, s, step);
    hide Next, Partition, CalledOnce, Alone, Dropped, Explained, NoRepeats, DeadSound, WorkersSound, Timed, Extends, InDead, LetterSound;
    if t.dead == s.dead {
      LettersStay(cfg, s, t);
    } else {
      BuryKnows(cfg, s, step.w);
      LetterAdded(cfg, s, t, DeadLetter(Head(s, step.w), s.workers[step.w].phase.count, s.now));
    }
  }

  lemma CallEffect(cfg: Config, s: Stream, step: Step)
    requires Readable(s)
    ensures var t := Next(cfg, s, step);
            || (t.called == s.called && t.handled == s.handled)
            || (step.Handle? && Busy(s, step.w) && s.workers[step.w].phase == Call
                && t.called == s.called + [Head(s, step.w)]
                && t.handled == if step.ok then s.handled + [Head(s, step.w)] else s.handled)
  {
    HandOutHistory(s);
    hide Dropped, Readable, HandOut, Batch, Claimable;
  }

  lemma NextCalled(cfg: Config, s: Stream, step: Step)
    requires Sound(cfg, s)
    ensures CalledOnce(cfg, Next(cfg, s, step))
  {
    NextExtends(cfg, s, step);
    CallEffect(cfg, s, step);
    hide Next, Partition, DeadSound, Alone, Dropped, Explained;
    if step.Handle? && Busy(s, step.w) {
      assert WorkerSound(cfg, s, s.workers[step.w]);
    }
  }

  // ---- Consumers -----------------------------------------------------------------------

  /** The consumer that takes the step. */
  function By(step: Step): Option<nat> {
    match step
    case Append(_) => None
    case Wait(_) => None
    case Start(w, _) => Some(w)
    case Crash(w) => Some(w)
    case Read(w, _) => Some(w)
    case Inspect(w) => Some(w)
    case Handle(w, _) => Some(w)
    case Ack(w, _) => Some(w)
    case Check(w, _) => Some(w)
    case AddDead(w, _) => Some(w)
  }

  /** Another consumer's entry in the table is as it was. */
  ghost predicate Untouched(s: Stream, t: Stream, v: nat) {
    (v in t.workers <==> v in s.workers) && (v in s.workers ==> t.workers[v] == s.workers[v])
  }

  lemma OthersKeptSettling(cfg: Config, s: Stream, step: Step, v: nat)
    requires Readable(s) && By(step) != Some(v) && (step.Ack? || step.Check? || step.AddDead?)
    ensures Untouched(s, Next(cfg, s, step), v)
  {
    hide Readable;
  }

  lemma OthersKeptWorking(cfg: Config, s: Stream, step: Step, v: nat)
    requires Readable(s) && By(step) != Some(v) && !(step.Ack? || step.Check? || step.AddDead?)
    ensures Untouched(s, Next(cfg, s, step), v)
  {
    HandOutHistory(s);
    hide Dropped, Readable, HandOut, Batch, Claimable;
  }

  lemma OthersKept(cfg: Config, s: Stream, step: Step, v: nat)
    requires Readable(s) && By(step) != Some(v)
    ensures var t := Next(cfg, s, step);
            (v in t.workers <==> v in s.workers) && (v in s.workers ==> t.workers[v] == s.workers[v])
  {
    hide Next;
    if step.Ack? || step.Check? || step.AddDead? {
      OthersKeptSettling(cfg, s, step, v);
    } else {
      OthersKeptWorking(cfg, s, step, v);
    }
  }

  lemma WorkerStays(cfg: Config, s: Stream, t: Stream, worker: Worker)
    requires Extends(s, t) && WorkerSound(cfg, s, worker)
    requires forall k: nat | k < |worker.todo| :: worker.todo[k] < |s.log| && worker.todo[k] in s.delivered
    requires forall id | id in worker.todo && id in t.called :: id in s.called
    requires forall id | id in worker.todo && InDead(t, id) :: InDead(s, id)
    ensures WorkerSound(cfg, t, worker)
  {
    hide Dropped, NoRepeats;
    if worker.todo != [] && worker.phase == Close {
      var k: nat :| k < |s.dead| && s.dead[k].originalId == worker.todo[0];
      assert t.dead[k].originalId == worker.todo[0];
    }
  }

  lemma HeadIsMine(s: Stream, w: nat, v: nat)
    requires Alone(s) && Busy(s, w) && v in s.workers && v != w
    ensures Head(s, w) !in s.workers[v].todo
  {
    assert Head(s, w) in s.workers[w].todo;
  }

  lemma {:induction false} OthersSound(cfg: Config, s: Stream, step: Step, v: nat)
    requires Sound(cfg, s) && By(step) != Some(v) && v in s.workers
    ensures WorkerSound(cfg, Next(cfg, s, step), s.workers[v])
  {
    NextExtends(cfg, s, step);
    CallEffect(cfg, s, step);
    var t := Next(cfg, s, step);
    var todo := s.workers[v].todo;
    hide Next, Partition, DeadSound, Dropped, Explained, CalledOnce, WorkerSound, NoRepeats, Alone;
    assert WorkerSound(cfg, s, s.workers[v]);
    DeadEffect(cfg, s, step);
    if (step.Handle? || step.AddDead?) && Busy(s, step.w) {
      HeadIsMine(s, step.w, v);
    }
    forall id | id in todo && InDead(t, id) ensures InDead(s, id) {
      var k: nat :| k < |t.dead| && t.dead[k].originalId == id;
      if k < |s.dead| { assert s.dead[k].originalId == id; }
    }
    WorkerStays(cfg, s, t, s.workers[v]);
  }

  /** Done with the head: the next entry of the batch has not been called. */
  lemma AdvanceSound(cfg: Config, s: Stream, t: Stream, w: nat)
    requires Sound(cfg, s) && Busy(s, w)
    requires t.called == s.called
    ensures WorkerSound(cfg, t, Worker(s.workers[w].todo[1..], Look))
  {
    hide Readable, Timed, Partition, DeadSound, Dropped, Explained, CalledOnce, Alone;
    assert WorkerSound(cfg, s, s.workers[w]);
  }

  lemma InspectSound(cfg: Config, s: Stream, w: nat)
    requires Sound(cfg, s) && w in s.workers
    ensures WorkerSound(cfg, Next(cfg, s, Inspect(w)), Next(cfg, s, Inspect(w)).workers[w])
  {
    hide HandOut, Claim, Claimable, Batch, Extends, Readable, Timed, Partition, DeadSound, Dropped, Explained, CalledOnce, Alone, NoRepeats;
    assert WorkerSound(cfg, s, s.workers[w]);
  }

  lemma DeadWereCalled(cfg: Config, s: Stream, id: nat)
    requires DeadSound(cfg, s) && InDead(s, id)
    ensures id in s.called
  {
  }

  /** What a worker's soundness rests on besides the worker. */
  ghost predicate SameBooks(s: Stream, t: Stream) {
    t.log == s.log && t.delivered == s.delivered && t.now == s.now
  }

  lemma HandleEffect(cfg: Config, s: Stream, w: nat, ok: bool)
    requires Readable(s) && w in s.workers
    ensures var t := Next(cfg, s, Handle(w, ok));
            if Busy(s, w) && s.workers[w].phase == Call then
              && SameBooks(s, t) && t.dead == s.dead && t.called == s.called + [Head(s, w)]
              && t.handled == (if ok then s.handled + [Head(s, w)] else s.handled)
              && w in t.workers && t.workers[w] == s.workers[w].(phase := if ok then Done else Count)
            else t == s
  {
    hide Readable;
  }

  lemma HandleSound(cfg: Config, s: Stream, w: nat, ok: bool)
    requires Sound(cfg, s) && w in s.workers
    ensures WorkerSound(cfg, Next(cfg, s, Handle(w, ok)), Next(cfg, s, Handle(w, ok)).workers[w])
  {
    if Busy(s, w) && InDead(s, Head(s, w)) { DeadWereCalled(cfg, s, Head(s, w)); }
    HandleEffect(cfg, s, w, ok);
    hide Next, Readable, Timed, Partition, DeadSound, Dropped, Explained, CalledOnce, Alone;
    assert WorkerSound(cfg, s, s.workers[w]);
    hide WorkersSound, Sound;
  }

  lemma AckEffect(cfg: Config, s: Stream, w: nat, outcome: Outcome)
    requires Readable(s) && w in s.workers
    ensures var t := Next(cfg, s, Ack(w, outcome)); var worker := s.workers[w];
            && SameBooks(s, t) && t.dead == s.dead && t.called == s.called && t.handled == s.handled && w in t.workers
            && if Busy(s, w) && worker.phase in {Skip, Done, Close} then
                 && t.workers[w] == (if outcome.Replied? || worker.phase == Close then Worker(worker.todo[1..], Look)
                                     else if worker.phase == Done then worker.(phase := Count)
                                     else IDLE)
                 && (outcome.Replied? ==> Head(s, w) in t.acked)
               else t == s
  {
    hide Readable;
  }

  lemma AckSound(cfg: Config, s: Stream, w: nat, outcome: Outcome)
    requires Sound(cfg, s) && w in s.workers
    ensures WorkerSound(cfg, Next(cfg, s, Ack(w, outcome)), Next(cfg, s, Ack(w, outcome)).workers[w])
  {
    var t := Next(cfg, s, Ack(w, outcome));
    AckEffect(cfg, s, w, outcome);
    hide Next, Readable, Timed, Partition, DeadSound, Dropped, Explained, CalledOnce, Alone;
    if Busy(s, w) {
      AdvanceSound(cfg, s, t, w);
    }
    assert WorkerSound(cfg, s, s.workers[w]);
    hide WorkersSound, Sound;
  }

  lemma CheckSound(cfg: Config, s: Stream, w: nat, outcome: Outcome)
    requires Sound(cfg, s) && w in s.workers
    ensures WorkerSound(cfg, Next(cfg, s, Check(w, outcome)), Next(cfg, s, Check(w, outcome)).workers[w])
  {
    var t := Next(cfg, s, Check(w, outcome));
    hide HandOut, Claim, Claimable, Batch, Extends, Partition, DeadSound, Dropped, Explained, CalledOnce, Alone;
    assert WorkerSound(cfg, s, s.workers[w]);
    if Busy(s, w) {
      AdvanceSound(cfg, s, t, w);
    }
  }

  lemma AddDeadEffect(cfg: Config, s: Stream, w: nat, outcome: Outcome)
    requires Readable(s) && w in s.workers
    ensures var t := Next(cfg, s, AddDead(w, outcome)); var worker := s.workers[w];
            if Busy(s, w) && worker.phase.Bury? then
              && SameBooks(s, t) && t.called == s.called && t.handled == s.handled && w in t.workers
              && t.workers[w] == (if outcome.Replied? then worker.(phase := Close) else Worker(worker.todo[1..], Look))
              && (outcome.Replied? ==> |t.dead| == |s.dead| + 1 && t.dead[|s.dead|].originalId == Head(s, w))
            else t == s
  {
    hide Readable;
  }

  lemma AddDeadSound(cfg: Config, s: Stream, w: nat, outcome: Outcome)
    requires Sound(cfg, s) && w in s.workers
    ensures WorkerSound(cfg, Next(cfg, s, AddDead(w, outcome)), Next(cfg, s, AddDead(w, outcome)).workers[w])
  {
    var t := Next(cfg, s, AddDead(w, outcome));
    AddDeadEffect(cfg, s, w, outcome);
    hide Next, Readable, Timed, Partition, DeadSound, Dropped, Explained, CalledOnce, Alone;
    if Busy(s, w) {
      AdvanceSound(cfg, s, t, w);
    }
    assert WorkerSound(cfg, s, s.workers[w]);
    hide WorkersSound, Sound;
  }

  /** Entries handed out now were never handed out before. */
  lemma FreshBatch(cfg: Config, s: Stream, t: Stream)
    requires s.next <= |s.log| && CalledOnce(cfg, s) && t.called == s.called
    ensures WorkerSound(cfg, t, Worker(Batch(s), Look))
  {
    BatchMembers(s);
    assert forall k: nat | k < |Batch(s)| :: Batch(s)[k] >= s.next;
    hide NoRepeats, Batch, BatchEnd, Dropped;
  }

  lemma ReadHands(cfg: Config, s: Stream, w: nat)
    requires Readable(s) && w in s.workers && !Busy(s, w)
    ensures var t := Next(cfg, s, Read(w, Replied)); w in t.workers && t.workers[w] == Worker(Batch(s), Look)
  {
    hide Readable, HandOut, Batch;
  }

  /** A read that hands its consumer nothing leaves it as it was. */
  lemma UnreadStays(cfg: Config, s: Stream, w: nat, outcome: Outcome)
    requires Sound(cfg, s) && w in s.workers && (Busy(s, w) || !outcome.Replied?)
    ensures var t := Next(cfg, s, Read(w, outcome)); w in t.workers && WorkerSound(cfg, t, t.workers[w])
  {
    var t := Next(cfg, s, Read(w, outcome));
    HandOutHistory(s);
    NextExtends(cfg, s, Read(w, outcome));
    hide Extends, HandOut, Batch, Partition, DeadSound, Explained, Alone, CalledOnce, NoRepeats, Dropped, PhaseSound, WorkerSound;
    assert WorkerSound(cfg, s, s.workers[w]);
    WorkerStays(cfg, s, t, s.workers[w]);
  }

  lemma ReadSound(cfg: Config, s: Stream, w: nat, outcome: Outcome)
    requires Sound(cfg, s) && w in s.workers
    ensures WorkerSound(cfg, Next(cfg, s, Read(w, outcome)), Next(cfg, s, Read(w, outcome)).workers[w])
  {
    var t := Next(cfg, s, Read(w, outcome));
    HandOutHistory(s);
    hide WorkerSound, Extends, HandOut, Batch, Partition, Timed, DeadSound, Explained, Alone, CalledOnce, NoRepeats, Dropped,
         PhaseSound, InDead;
    if !Busy(s, w) && outcome.Replied? {
      FreshBatch(cfg, s, t);
      hide Next;
      ReadHands(cfg, s, w);
    } else {
      hide Next;
      UnreadStays(cfg, s, w, outcome);
    }
  }

  lemma OwnSound(cfg: Config, s: Stream, step: Step, w: nat)
    requires Sound(cfg, s) && By(step) == Some(w) && w in Next(cfg, s, step).workers
    ensures WorkerSound(cfg, Next(cfg, s, step), Next(cfg, s, step).workers[w])
  {
    if w !in s.workers {
      hide Partition, Timed, DeadSound, Explained, Alone, CalledOnce, Readable, WorkersSound, HandOut, Claim, Claimable;
    } else {
      match step
      case Start(_, _) =>
        hide Partition, Timed, DeadSound, Explained, Alone, CalledOnce, Readable;
      case Crash(_) =>
        hide Partition, Timed, DeadSound, Explained, Alone, CalledOnce, Readable;
      case Read(_, outcome) => hide *; ReadSound(cfg, s, w, outcome);
      case Inspect(_) => hide *; InspectSound(cfg, s, w);
      case Handle(_, ok) => hide *; HandleSound(cfg, s, w, ok);
      case Ack(_, outcome) => hide *; AckSound(cfg, s, w, outcome);
      case Check(_, outcome) => hide *; CheckSound(cfg, s, w, outcome);
      case AddDead(_, outcome) => hide *; AddDeadSound(cfg, s, w, outcome);
    }
  }

  lemma NextWorkers(cfg: Config, s: Stream, step: Step)
    requires Sound(cfg, s)
    ensures WorkersSound(cfg, Next(cfg, s, step))
  {
    var t := Next(cfg, s, step);
    hide Next, WorkerSound, Partition, Timed, DeadSound, Explained, Alone, CalledOnce;
    forall v | v in t.workers ensures WorkerSound(cfg, t, t.workers[v]) {
      if By(step) == Some(v) {
        OwnSound(cfg, s, step, v);
      } else {
        OthersKept(cfg, s, step, v);
        OthersSound(cfg, s, step, v);
      }
    }
  }

  /** A step leaves its consumer with part of what it had, or with a fresh batch. */
  lemma TodoEffect(cfg: Config, s: Stream, step: Step, id: nat)
    requires Readable(s) && By(step).Some?
    ensures var t := Next(cfg, s, step); var w := By(step).value;
            w in t.workers && id in t.workers[w].todo ==>
              w in s.workers && (id in s.workers[w].todo || (step.Read? && id >= s.next))
  {
    BatchMembers(s);
    HandOutHistory(s);
    hide Dropped, Readable, HandOut, Batch, BatchEnd, Claimable;
  }

  lemma {:induction false} NextAlone(cfg: Config, s: Stream, step: Step)
    requires Readable(s) && Alone(s)
    ensures Alone(Next(cfg, s, step))
  {
    var t := Next(cfg, s, step);
    hide Next;
    forall v, w, id | v in t.workers && w in t.workers && id in t.workers[v].todo && id in t.workers[w].todo ensures v == w {
      if By(step).Some? { TodoEffect(cfg, s, step, id); }
      if By(step) != Some(v) { OthersKept(cfg, s, step, v); }
      if By(step) != Some(w) { OthersKept(cfg, s, step, w); }
    }
  }

  lemma {:induction false} NextSound(cfg: Config, s: Stream, step: Step)
    requires Sound(cfg, s)
    ensures Sound(cfg, Next(cfg, s, step))
  {
    hide Next, Readable, Partition, Timed, Explained, DeadSound, CalledOnce, WorkersSound, Alone;
    NextReadable(cfg, s, step);
    NextPartition(cfg, s, step);
    NextTimed(cfg, s, step);
    NextExplained(cfg, s, step);
    NextDead(cfg, s, step);
    NextCalled(cfg, s, step);
    NextWorkers(cfg, s, step);
    NextAlone(cfg, s, step);
  }

  lemma {:induction false} RunSoundFrom(cfg: Config, s: Stream, steps: seq<Step>)
    requires Sound(cfg, s)
    ensures Sound(cfg, Run(cfg, s, steps))
    decreases |steps|
  {
    hide Next, Readable, Partition, Timed, Explained, DeadSound, CalledOnce, WorkersSound, Alone;
    if steps != [] {
      NextSound(cfg, s, steps[0]);
      RunSoundFrom(cfg, Next(cfg, s, steps[0]), steps[1..]);
    }
  }

  // ---- Over every run ----------------------------------------------------------------------

  lemma EmptySound(cfg: Config)
    ensures Sound(cfg, EMPTY)
  {
  }

  /** Nothing is lost: in every interleaving of consumers, failures and crashes each entry is exactly one
      of not handed out, pending and acknowledged, and an acknowledged one was handled, or had no handler
      or no event in it, or is among the dead letters. */
  lemma NothingIsLost(cfg: Config, steps: seq<Step>, id: nat)
    requires id < |Run(cfg, EMPTY, steps).log|
    ensures var s := Run(cfg, EMPTY, steps);
            && (id >= s.next <==> !(id in s.pending || id in s.acked))
            && !(id in s.pending && id in s.acked)
            && (id in s.acked ==> id in s.handled || !HasHandler(cfg, s.log[id]) || InDead(s, id))
  {
    EmptySound(cfg);
    RunSoundFrom(cfg, EMPTY, steps);
    DroppedExactly(cfg, Run(cfg, EMPTY, steps).log[id]);
    hide Run, Timed, CalledOnce, WorkersSound, Alone, Dropped, HasHandler, InDead;
  }

  /** An inspected entry goes to its handler exactly when it has one; every other is to be acknowledged unhandled. */
  lemma InspectDecides(cfg: Config, s: Stream, w: nat)
    requires Readable(s) && Busy(s, w) && s.workers[w].phase == Look && Head(s, w) < |s.log|
    ensures var t := Next(cfg, s, Inspect(w));
            && w in t.workers && t.workers[w].todo == s.workers[w].todo
            && t.workers[w].phase == if HasHandler(cfg, s.log[Head(s, w)]) then Call else Skip
  {
    DroppedExactly(cfg, s.log[Head(s, w)]);
    hide Dropped, HasHandler;
  }

  /** However often an entry is claimed, its handler is called once at most; so what reaches the dead
      letters failed once, and took two claims and two minutes, whatever the documented three attempts. */
  lemma HandlerCalledOnce(cfg: Config, steps: seq<Step>)
    ensures var s := Run(cfg, EMPTY, steps);
            && NoRepeats(s.called)
            && (forall i: nat, j: nat | i < j < |s.dead| :: s.dead[i].originalId != s.dead[j].originalId)
            && forall k: nat | k < |s.dead| ::
                 && s.dead[k].originalId in s.called && s.dead[k].originalId in s.delivered
                 && s.dead[k].deliveryCount >= 3
                 && s.dead[k].failedAt >= s.delivered[s.dead[k].originalId] + 2 * 60_000
  {
    EmptySound(cfg);
    RunSoundFrom(cfg, EMPTY, steps);
    hide Run, Partition, Timed, Explained, WorkersSound, Alone, NoRepeats, Dropped;
  }

  /** Pending, and in no consumer's hands. */
  ghost predicate Stranded(s: Stream, id: nat) {
    id in s.pending && forall w | w in s.workers :: id !in s.workers[w].todo
  }

  lemma StrandedStaysPending(cfg: Config, s: Stream, step: Step, id: nat)
    requires Sound(cfg, s) && Stranded(s, id)
    ensures var t := Next(cfg, s, step); Stranded(t, id) && id < s.next
  {
    var t := Next(cfg, s, step);
    NextPartition(cfg, s, step);
    NextExtends(cfg, s, step);
    OnlyAckAcknowledges(cfg, s, step);
    hide Next, Timed, Explained, DeadSound, CalledOnce, WorkersSound, Alone, Dropped;
    forall w | w in t.workers ensures id !in t.workers[w].todo {
      if By(step) == Some(w) { TodoEffect(cfg, s, step, id); } else { OthersKept(cfg, s, step, w); }
    }
  }

  lemma {:induction false} StrandedStays(cfg: Config, s: Stream, step: Step, id: nat)
    requires Sound(cfg, s) && Stranded(s, id)
    ensures var t := Next(cfg, s, step);
            && Stranded(t, id)
            && (id in t.called <==> id in s.called) && (id in t.handled <==> id in s.handled)
            && (InDead(t, id) <==> InDead(s, id))
  {
    var t := Next(cfg, s, step);
    StrandedStaysPending(cfg, s, step, id);
    NextExtends(cfg, s, step);
    CallEffect(cfg, s, step);
    DeadEffect(cfg, s, step);
    hide Next, Partition, Timed, Explained, DeadSound, CalledOnce, WorkersSound, Alone, Dropped;
    if InDead(s, id) {
      var k: nat :| k < |s.dead| && s.dead[k].originalId == id;
      assert t.dead[k].originalId == id;
    }
    if InDead(t, id) {
      var k: nat :| k < |t.dead| && t.dead[k].originalId == id;
      assert k < |s.dead| && s.dead[k].originalId == id;
    }
  }

  /** Once pending and out of every consumer's hands, an entry stays so in every continuation: claimed
      perhaps, but never handled again, never acknowledged, never among the dead letters. */
  lemma {:induction false} StrandedForever(cfg: Config, s: Stream, steps: seq<Step>, id: nat)
    requires Sound(cfg, s) && Stranded(s, id)
    ensures var t := Run(cfg, s, steps);
            && Stranded(t, id) && id !in t.acked
            && (id in t.called <==> id in s.called) && (id in t.handled <==> id in s.handled)
            && (InDead(t, id) <==> InDead(s, id))
    decreases |steps|
  {
    hide Next, Timed, Explained, DeadSound, CalledOnce, WorkersSound, Alone, InDead, Stranded;
    if steps == [] {
      StrandedUnacked(s, id);
    } else {
      StrandedStays(cfg, s, steps[0], id);
      NextSound(cfg, s, steps[0]);
      StrandedForever(cfg, Next(cfg, s, steps[0]), steps[1..], id);
    }
  }

  lemma StrandedUnacked(s: Stream, id: nat)
    requires Partition(s) && Stranded(s, id)
    ensures id !in s.acked
  {
  }

  /** What becomes of a failed entry is settled by one look at its delivery count: below the limit, or
      with the look itself failing, it is stranded; otherwise it is about to become a dead letter. */
  lemma FailureIsFinal(cfg: Config, s: Stream, w: nat, outcome: Outcome)
    requires Sound(cfg, s) && Busy(s, w) && s.workers[w].phase == Count && Head(s, w) in s.pending
    ensures var t := Next(cfg, s, Check(w, outcome)); var id := Head(s, w);
            Stranded(t, id) <==> !(outcome.Replied? && s.pending[id].count >= 3)
  {
    var t := Next(cfg, s, Check(w, outcome));
    var id := Head(s, w);
    assert WorkerSound(cfg, s, s.workers[w]);
    hide Readable, Partition, Timed, Explained, DeadSound, CalledOnce, WorkersSound, PhaseSound;
    assert id in s.workers[w].todo;
    if outcome.Replied? && s.pending[id].count >= MAX_RETRIES {
      assert t.workers[w].todo == s.workers[w].todo;
    } else {
      forall v | v in t.workers ensures id !in t.workers[v].todo {
        if v != w { assert t.workers[v] == s.workers[v]; }
      }
    }
  }

  /** A read hands its consumer the next entries in order, ten at most, each delivered once and now. */
  lemma ReadHandsOut(cfg: Config, s: Stream, w: nat)
    requires Readable(s) && w in s.workers && !Busy(s, w)
    ensures var t := Next(cfg, s, Read(w, Replied));
            && w in t.workers && t.workers[w].phase == Look
            && |t.workers[w].todo| == (if |s.log| - s.next < 10 then |s.log| - s.next else 10)
            && (forall k: nat | k < |t.workers[w].todo| :: t.workers[w].todo[k] == s.next + k)
            && t.next == s.next + |t.workers[w].todo|
            && (forall id: nat | s.next <= id < t.next :: id in t.pending && t.pending[id] == Delivery(1, s.now) && id in t.delivered && t.delivered[id] == s.now)
            && (forall id: nat | id < s.next :: (id in t.pending <==> id in s.pending) && (id in s.pending ==> t.pending[id] == s.pending[id]))
  {
    BatchMembers(s);
    ReadHands(cfg, s, w);
    hide Readable;
  }

  /** An acknowledgment takes effect unless it is refused, whether or not its reply arrives; without the reply a dropped
      entry ends the batch, a handled one is looked at as failed, and a dead letter is done with. */
  lemma AckTakesEffect(cfg: Config, s: Stream, w: nat, outcome: Outcome)
    requires Readable(s) && Busy(s, w) && s.workers[w].phase in {Skip, Done, Close}
    ensures var (t, id, worker) := (Next(cfg, s, Ack(w, outcome)), Head(s, w), s.workers[w]);
            && t.acked == (if outcome.Refused? then s.acked else s.acked + {id})
            && t.pending == (if outcome.Refused? then s.pending else s.pending - {id})
            && t.dead == s.dead && t.called == s.called && t.handled == s.handled && w in t.workers
            && t.workers[w] == if outcome.Replied? || worker.phase == Close then Worker(worker.todo[1..], Look)
                               else if worker.phase == Done then Worker(worker.todo, Count) else Worker([], Look)
  {
    hide Readable;
  }

  /** A dead letter is added unless it is refused, and closed with an acknowledgment only where the reply arrives. */
  lemma BurialTakesEffect(cfg: Config, s: Stream, w: nat, outcome: Outcome)
    requires Readable(s) && Busy(s, w) && s.workers[w].phase.Bury?
    ensures var (t, id, worker) := (Next(cfg, s, AddDead(w, outcome)), Head(s, w), s.workers[w]);
            && t.dead == (if outcome.Refused? then s.dead else s.dead + [DeadLetter(id, worker.phase.count, s.now)])
            && t.acked == s.acked && t.pending == s.pending && w in t.workers
            && t.workers[w] == if outcome.Replied? then Worker(worker.todo, Close) else Worker(worker.todo[1..], Look)
  {
    hide Readable;
  }

  /** A failed entry is asked about, and buried from the third delivery on; a question without an answer gives it up. */
  lemma CheckTakesEffect(cfg: Config, s: Stream, w: nat, outcome: Outcome)
    requires Readable(s) && Busy(s, w) && s.workers[w].phase == Count
    ensures var (t, id, todo) := (Next(cfg, s, Check(w, outcome)), Head(s, w), s.workers[w].todo);
            && t.acked == s.acked && t.pending == s.pending && t.dead == s.dead && w in t.workers
            && t.workers[w] == if outcome.Replied? && id in s.pending && s.pending[id].count >= 3 then Worker(todo, Bury(s.pending[id].count))
                               else Worker(todo[1..], Look)
  {
    hide Readable;
  }

  /** A starting consumer claims at most fifty entries, each idle for a minute: they count once more, from now on. */
  lemma ClaimCounts(cfg: Config, s: Stream, w: nat, claimed: set<nat>)
    requires Readable(s) && w !in s.workers
    ensures var t := Next(cfg, s, Start(w, claimed));
            if |claimed| <= 50 && forall id | id in claimed :: id in s.pending && s.now - s.pending[id].at >= 60_000 then
              && w in t.workers && t.workers[w].todo == [] && t.pending.Keys == s.pending.Keys
              && forall id | id in s.pending ::
                   t.pending[id] == if id in claimed then Delivery(s.pending[id].count + 1, s.now) else s.pending[id]
            else t == s
  {
    hide Readable;
    assert Claimable(s, claimed) <==> |claimed| <= 50 && forall id | id in claimed :: id in s.pending && s.now - s.pending[id].at >= 60_000;
  }

  /** The stream after one entry was added and handed to a lone consumer, in the given phase. */
  function Single(fields: Fields, worker: Worker, called: seq<nat>): Stream {
    Stream([fields], 1, map[0 := Delivery(1, 0)], [], map[0 := worker], 0, map[0 := 0], {}, called, [])
  }

  lemma RunCons(cfg: Config, s: Stream, step: Step, rest: seq<Step>)
    requires Readable(s)
    ensures Readable(Next(cfg, s, step)) && Run(cfg, s, [step] + rest) == Run(cfg, Next(cfg, s, step), rest)
  {
    NextReadable(cfg, s, step);
    hide Next, Readable;
    assert ([step] + rest)[1..] == rest;
  }

  lemma SingleRead(cfg: Config, fields: Fields)
    ensures Readable(EMPTY.(log := [fields], workers := map[0 := IDLE]))
    ensures Next(cfg, EMPTY.(log := [fields], workers := map[0 := IDLE]), Read(0, Replied)) == Single(fields, Worker([0], Look), [])
  {
    var s := EMPTY.(log := [fields], workers := map[0 := IDLE]);
    assert Batch(s) == [0];
    assert HandOut(s).pending == map[0 := Delivery(1, 0)] && HandOut(s).delivered == map[0 := 0];
  }

  lemma SingleStarts(cfg: Config, fields: Fields)
    ensures Next(cfg, EMPTY.(log := [fields]), Start(0, {})) == EMPTY.(log := [fields], workers := map[0 := IDLE])
    ensures Next(cfg, EMPTY, Append(fields)) == EMPTY.(log := [fields])
  {
    assert EMPTY.log + [fields] == [fields];
    assert Claim(EMPTY.(log := [fields]), {}).pending == map[];
  }

  lemma SingleInspected(cfg: Config, fields: Fields)
    requires !Dropped(cfg, fields)
    ensures Next(cfg, Single(fields, Worker([0], Look), []), Inspect(0)) == Single(fields, Worker([0], Call), [])
  {
    hide Dropped;
    var s := Single(fields, Worker([0], Look), []);
    assert Busy(s, 0) && Head(s, 0) == 0 && s.log[Head(s, 0)] == fields;
    assert Next(cfg, s, Inspect(0)) == At(s, 0, Call);
    assert s.workers[0 := Worker([0], Call)] == map[0 := Worker([0], Call)];
  }

  lemma SingleFails(cfg: Config, fields: Fields)
    ensures Next(cfg, Single(fields, Worker([0], Call), []), Handle(0, false)) == Single(fields, Worker([0], Count), [0])
  {
    hide Dropped;
    var s := Single(fields, Worker([0], Call), []);
    assert Busy(s, 0) && Head(s, 0) == 0;
    assert Next(cfg, s, Handle(0, false)) == At(s, 0, Count).(called := s.called + [0], handled := []);
    assert s.called + [0] == [0];
    assert s.workers[0 := Worker([0], Count)] == map[0 := Worker([0], Count)];
  }

  lemma SingleGivenUp(cfg: Config, fields: Fields)
    ensures Next(cfg, Single(fields, Worker([0], Count), [0]), Check(0, Replied)) == Single(fields, IDLE, [0])
  {
    var s := Single(fields, Worker([0], Count), [0]);
    assert Busy(s, 0) && Head(s, 0) == 0 && s.pending[0].count == 1;
    assert Next(cfg, s, Check(0, Replied)) == Advance(s, 0);
    assert s.workers[0].todo[1..] == [];
    assert s.workers[0 := IDLE] == map[0 := IDLE];
  }

  lemma SingleSound(cfg: Config, fields: Fields)
    requires !Dropped(cfg, fields)
    ensures Sound(cfg, Single(fields, IDLE, [0])) && Stranded(Single(fields, IDLE, [0]), 0)
  {
    hide Dropped;
  }

  function FailOnce(fields: Fields): seq<Step> {
    [Append(fields)] + ([Start(0, {})] + ([Read(0, Replied)] +
      ([Inspect(0)] + ([Handle(0, false)] + ([Check(0, Replied)] + [])))))
  }

  lemma FailOnceRun(cfg: Config, fields: Fields)
    requires !Dropped(cfg, fields)
    ensures Run(cfg, EMPTY, FailOnce(fields)) == Single(fields, IDLE, [0])
  {
    SingleStarts(cfg, fields);
    SingleRead(cfg, fields);
    SingleInspected(cfg, fields);
    SingleFails(cfg, fields);
    SingleGivenUp(cfg, fields);
    EmptySound(cfg);
    hide Next, Dropped, Readable, Sound, Single;
    var steps := FailOnce(fields);
    RunCons(cfg, EMPTY, Append(fields), steps[1..]);
    RunCons(cfg, EMPTY.(log := [fields]), Start(0, {}), steps[2..]);
    RunCons(cfg, EMPTY.(log := [fields], workers := map[0 := IDLE]), Read(0, Replied), steps[3..]);
    RunCons(cfg, Single(fields, Worker([0], Look), []), Inspect(0), steps[4..]);
    RunCons(cfg, Single(fields, Worker([0], Call), []), Handle(0, false), steps[5..]);
    RunCons(cfg, Single(fields, Worker([0], Count), [0]), Check(0, Replied), steps[6..]);
    assert steps == [Append(fields)] + steps[1..] && steps[1..] == [Start(0, {})] + steps[2..];
    assert steps[2..] == [Read(0, Replied)] + steps[3..] && steps[3..] == [Inspect(0)] + steps[4..];
    assert steps[4..] == [Handle(0, false)] + steps[5..] && steps[5..] == [Check(0, Replied)] + steps[6..];
    assert steps[6..] == [];
  }

  /** The smallest such run: one entry, one failure, and no later step can help. */
  lemma FirstFailureStrands(cfg: Config, fields: Fields, later: seq<Step>)
    requires !Dropped(cfg, fields)
    ensures var s := Run(cfg, Run(cfg, EMPTY, FailOnce(fields)), later);
            0 in s.pending && 0 !in s.handled && 0 !in s.acked && !InDead(s, 0)
  {
    FailOnceRun(cfg, fields);
    SingleSound(cfg, fields);
    hide Run, Dropped, Sound;
    StrandedForever(cfg, Single(fields, IDLE, [0]), later, 0);
  }

  // ---- Putting steps together -----------------------------------------------------------

  lemma {:induction false} RunSnoc(cfg: Config, s: Stream, steps: seq<Step>, step: Step)
    requires Readable(s)
    ensures Run(cfg, s, steps + [step]) == Next(cfg, Run(cfg, s, steps), step)
    decreases |steps|
  {
    hide Next, Readable;
    NextReadable(cfg, s, (steps + [step])[0]);
    if steps == [] {
      assert Run(cfg, Next(cfg, s, step), []) == Next(cfg, s, step);
    } else {
      RunSnoc(cfg, Next(cfg, s, steps[0]), steps[1..], step);
      assert (steps + [step])[1..] == steps[1..] + [step];
    }
  }

  lemma SoundReadable(cfg: Config, s: Stream)
    requires Sound(cfg, s)
    ensures Readable(s) && Timed(s) && Partition(s)
  {
  }

  lemma ExtendsRefl(s: Stream)
    ensures Extends(s, s)
  {
  }

  lemma ExtendsTrans(s: Stream, t: Stream, u: Stream)
    requires Extends(s, t) && Extends(t, u)
    ensures Extends(s, u)
  {
  }

  lemma ExtendsSettled(s: Stream, t: Stream)
    requires Extends(s, t)
    ensures forall id | id in s.called :: id in t.called
    ensures forall id | id in s.acked :: id in t.acked
    ensures forall id: nat | id < |s.log| :: id < |t.log| && t.log[id] == s.log[id]
  {
  }
}
