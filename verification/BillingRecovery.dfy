/** What can still become of a pending entry of the billing stream.

  An entry in a consumer's hands can always be brought to its acknowledgment; one in nobody's hands never
  can, and a crash leaves all its consumer had in nobody's hands.
 */
module BillingRecovery {
  import opened BillingEntries
  import opened BillingStream

  // ---- Crashes -------------------------------------------------------------------------

  /** A crash strands what its consumer had in hand, and nothing else. */
  lemma CrashStrandsExactly(cfg: Config, s: Stream, w: nat, id: nat)
    requires Sound(cfg, s) && w in s.workers && id in s.pending
    ensures Stranded(Next(cfg, s, Crash(w)), id) <==> id in s.workers[w].todo || Stranded(s, id)
  {
    var t := Next(cfg, s, Crash(w));
    assert forall v :: v in t.workers <==> v in s.workers && v != w;
    hide Readable, Partition, Timed, Explained, DeadSound, CalledOnce, WorkersSound;
    if id in s.workers[w].todo {
      assert forall v | v in t.workers :: id !in t.workers[v].todo;
    }
  }

  function CrashAtOnce(fields: Fields): seq<Step> {
    [Append(fields)] + ([Start(0, {})] + ([Read(0, Replied)] + ([Crash(0)] + [])))
  }

  lemma CrashedSound(cfg: Config, fields: Fields)
    ensures var s := Single(fields, IDLE, []).(workers := map[]);
            Next(cfg, Single(fields, Worker([0], Look), []), Crash(0)) == s && Sound(cfg, s) && Stranded(s, 0)
  {
    var s := Single(fields, Worker([0], Look), []);
    assert s.workers - {0} == map[];
    hide Dropped;
  }

  lemma CrashAtOnceRun(cfg: Config, fields: Fields)
    ensures Run(cfg, EMPTY, CrashAtOnce(fields)) == Single(fields, IDLE, []).(workers := map[])
  {
    SingleStarts(cfg, fields);
    SingleRead(cfg, fields);
    CrashedSound(cfg, fields);
    EmptySound(cfg);
    hide Next, Readable, Sound, Single, Stranded;
    var steps := CrashAtOnce(fields);
    RunCons(cfg, EMPTY, Append(fields), steps[1..]);
    RunCons(cfg, EMPTY.(log := [fields]), Start(0, {}), steps[2..]);
    RunCons(cfg, EMPTY.(log := [fields], workers := map[0 := IDLE]), Read(0, Replied), steps[3..]);
    RunCons(cfg, Single(fields, Worker([0], Look), []), Crash(0), steps[4..]);
    assert steps == [Append(fields)] + steps[1..] && steps[1..] == [Start(0, {})] + steps[2..];
    assert steps[2..] == [Read(0, Replied)] + steps[3..] && steps[3..] == [Crash(0)] + steps[4..];
    assert steps[4..] == [];
  }

  /** The smallest such run: one entry, read by a consumer that crashes. No later step, and no later consumer,
      ever calls its handler, acknowledges it or buries it. */
  lemma FirstCrashStrands(cfg: Config, fields: Fields, later: seq<Step>)
    ensures var s := Run(cfg, Run(cfg, EMPTY, CrashAtOnce(fields)), later);
            0 in s.pending && 0 !in s.called && 0 !in s.acked && !InDead(s, 0)
  {
    CrashAtOnceRun(cfg, fields);
    CrashedSound(cfg, fields);
    hide Run, Sound;
    StrandedForever(cfg, Single(fields, IDLE, []).(workers := map[]), later, 0);
  }

  /** A read whose reply is lost hands its entries to nobody. */
  lemma LostReadStrands(cfg: Config, s: Stream, w: nat, id: nat)
    requires Sound(cfg, s) && w in s.workers && !Busy(s, w) && id in Batch(s)
    ensures Stranded(Next(cfg, s, Read(w, ReplyLost)), id)
  {
    BatchMembers(s);
    HandOutHistory(s);
    hide Partition, Timed, Explained, DeadSound, CalledOnce, WorkersSound, Alone, Batch;
    assert forall v | v in s.workers :: id !in s.workers[v].todo;
  }

  // ---- What can still be acknowledged ------------------------------------------------------

  /** The next command of a consumer, all going well; of entries before `id` the failed are given up. */
  function Due(s: Stream, w: nat, id: nat): Step
    requires Busy(s, w)
  {
    match s.workers[w].phase
    case Look => Inspect(w)
    case Skip => Ack(w, Replied)
    case Call => Handle(w, true)
    case Done => Ack(w, Replied)
    case Count => Check(w, if Head(s, w) == id then Replied else Refused)
    case Bury(_) => AddDead(w, Replied)
    case Close => Ack(w, Replied)
  }

  /** How many claims the entry lacks before it can be buried. */
  function Lacking(s: Stream, id: nat): nat {
    if id in s.pending && s.pending[id].count < MAX_RETRIES then MAX_RETRIES - s.pending[id].count else 0
  }

  /** How far the consumer is from being done with its head. */
  function Rank(s: Stream, w: nat, id: nat): nat
    requires Busy(s, w)
  {
    match s.workers[w].phase
    case Look => 3
    case Skip => 1
    case Call => 2
    case Done => 1
    case Count => 3 + Lacking(s, id)
    case Bury(_) => 2
    case Close => 1
  }

  /** The entry is pending and in the consumer's hands. */
  ghost predicate InHand(s: Stream, w: nat, id: nat) {
    id in s.pending && w in s.workers && id in s.workers[w].todo
  }

  /** The entry is still in the consumer's hands, and nearer to its acknowledgment. */
  ghost predicate Nearer(s: Stream, t: Stream, w: nat, id: nat)
    requires Busy(s, w)
  {
    && InHand(t, w, id)
    && (|| |t.workers[w].todo| < |s.workers[w].todo|
        || (|t.workers[w].todo| == |s.workers[w].todo| && Rank(t, w, id) < Rank(s, w, id)))
  }

  lemma WorkingNearer(cfg: Config, s: Stream, w: nat, id: nat)
    requires Readable(s) && InHand(s, w, id) && s.workers[w].phase in {Look, Call}
    ensures Nearer(s, Next(cfg, s, Due(s, w, id)), w, id)
  {
    hide Readable, Dropped;
  }

  lemma AckNearer(cfg: Config, s: Stream, w: nat, id: nat)
    requires Readable(s) && InHand(s, w, id) && s.workers[w].phase in {Skip, Done, Close}
    ensures var t := Next(cfg, s, Due(s, w, id)); id in t.acked || Nearer(s, t, w, id)
  {
    hide Readable;
    var todo := s.workers[w].todo;
    assert todo == [todo[0]] + todo[1..];
  }

  lemma CheckNearer(cfg: Config, s: Stream, w: nat, id: nat)
    requires Readable(s) && InHand(s, w, id)
    requires s.workers[w].phase == Count && (Head(s, w) == id ==> Lacking(s, id) == 0)
    ensures Nearer(s, Next(cfg, s, Due(s, w, id)), w, id)
  {
    hide Readable;
    var todo := s.workers[w].todo;
    assert todo == [todo[0]] + todo[1..];
  }

  lemma BuryNearer(cfg: Config, s: Stream, w: nat, id: nat)
    requires Readable(s) && InHand(s, w, id) && s.workers[w].phase.Bury?
    ensures Nearer(s, Next(cfg, s, Due(s, w, id)), w, id)
  {
    hide Readable;
  }

  lemma DueNearer(cfg: Config, s: Stream, w: nat, id: nat)
    requires Readable(s) && InHand(s, w, id)
    requires s.workers[w].phase == Count && Head(s, w) == id ==> Lacking(s, id) == 0
    ensures var t := Next(cfg, s, Due(s, w, id)); id in t.acked || Nearer(s, t, w, id)
  {
    hide Readable, Next, Due, Nearer;
    match s.workers[w].phase
    case Look => WorkingNearer(cfg, s, w, id);
    case Call => WorkingNearer(cfg, s, w, id);
    case Count => CheckNearer(cfg, s, w, id);
    case Bury(_) => BuryNearer(cfg, s, w, id);
    case _ => AckNearer(cfg, s, w, id);
  }

  lemma FreshName(names: set<nat>) returns (v: nat)
    ensures forall n | n in names :: n < v
    decreases names
  {
    v := 0;
    if names != {} {
      var n :| n in names;
      var u := FreshName(names - {n});
      v := if u <= n then n + 1 else u;
      assert forall m | m in names :: m == n || m in names - {n};
    }
  }

  /** A consumer that starts late enough claims the entry, whoever has it; only the count changes. */
  lemma ClaimNearer(cfg: Config, s: Stream, w: nat, v: nat, id: nat)
    requires Sound(cfg, s) && InHand(s, w, id) && v !in s.workers
    requires s.workers[w].phase == Count && Lacking(s, id) > 0
    ensures var t := Next(cfg, Next(cfg, s, Wait(STALE_MS)), Start(v, {id}));
            Nearer(s, t, w, id)
  {
    assert id in s.delivered && s.pending[id].at <= s.now;
    hide Readable, Partition, Timed, Explained, DeadSound, CalledOnce, WorkersSound, Alone;
    var u := Next(cfg, s, Wait(STALE_MS));
    assert Claimable(u, {id});
  }

  /** Everything in a consumer's hands can be acknowledged: by its handler's success, as an entry without a
      handler, or as a dead letter once it has been claimed often enough. */
  lemma {:induction false} Acknowledge(cfg: Config, s: Stream, w: nat, id: nat) returns (steps: seq<Step>)
    requires Sound(cfg, s) && InHand(s, w, id)
    ensures id in Run(cfg, s, steps).acked
    decreases |s.workers[w].todo|, Rank(s, w, id)
  {
    hide Next, Sound, Nearer, Due, Rank, Lacking;
    SoundReadable(cfg, s);
    if s.workers[w].phase == Count && Head(s, w) == id && Lacking(s, id) > 0 {
      var v := FreshName(s.workers.Keys);
      ClaimNearer(cfg, s, w, v, id);
      NextSound(cfg, s, Wait(STALE_MS));
      var u := Next(cfg, s, Wait(STALE_MS));
      SoundReadable(cfg, u);
      NextSound(cfg, u, Start(v, {id}));
      var t := Next(cfg, u, Start(v, {id}));
      NearerDecreases(s, t, w, id);
      var rest := Acknowledge(cfg, t, w, id);
      RunCons(cfg, u, Start(v, {id}), rest);
      RunCons(cfg, s, Wait(STALE_MS), [Start(v, {id})] + rest);
      steps := [Wait(STALE_MS)] + ([Start(v, {id})] + rest);
    } else {
      DueNearer(cfg, s, w, id);
      NextSound(cfg, s, Due(s, w, id));
      var t := Next(cfg, s, Due(s, w, id));
      SoundReadable(cfg, t);
      var rest := [];
      if id !in t.acked {
        NearerDecreases(s, t, w, id);
        rest := Acknowledge(cfg, t, w, id);
      }
      RunCons(cfg, s, Due(s, w, id), rest);
      steps := [Due(s, w, id)] + rest;
    }
  }

  lemma NearerDecreases(s: Stream, t: Stream, w: nat, id: nat)
    requires Busy(s, w) && Nearer(s, t, w, id)
    ensures InHand(t, w, id)
    ensures || |t.workers[w].todo| < |s.workers[w].todo|
            || (|t.workers[w].todo| == |s.workers[w].todo| && Rank(t, w, id) < Rank(s, w, id))
  {
  }

  /** A pending entry can still be acknowledged, in some continuation, if and only if a consumer has it in hand.
      No claim and no new consumer brings a stranded one back. */
  lemma {:induction false} RecoverableExactly(cfg: Config, s: Stream, id: nat)
    requires Sound(cfg, s) && id in s.pending
    ensures (exists steps :: id in Run(cfg, s, steps).acked) <==> !Stranded(s, id)
  {
    SoundReadable(cfg, s);
    hide Run, Sound;
    if Stranded(s, id) {
      forall steps ensures id !in Run(cfg, s, steps).acked {
        StrandedForever(cfg, s, steps, id);
      }
    } else {
      var w :| w in s.workers && id in s.workers[w].todo;
      var steps := Acknowledge(cfg, s, w, id);
    }
  }
}
