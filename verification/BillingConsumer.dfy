/** The consumer's own code, with any other process moving between any two of its commands. */
module BillingConsumer {
  import opened Options
  import opened BillingEntries
  import opened BillingStream

  // ---- Where each command leaves the consumer that sent it ------------------------------------

  lemma AfterInspect(cfg: Config, s: Stream, w: nat)
    requires Readable(s) && Busy(s, w) && s.workers[w].phase == Look
    ensures var t := Next(cfg, s, Inspect(w));
            t.log == s.log && w in t.workers && t.workers[w] == s.workers[w].(phase := if Dropped(cfg, s.log[Head(s, w)]) then Skip else Call)
  {
    hide Dropped;
  }

  lemma AfterCheck(cfg: Config, s: Stream, w: nat, outcome: Outcome)
    requires Readable(s) && Busy(s, w) && s.workers[w].phase == Count
    ensures var t := Next(cfg, s, Check(w, outcome)); var count := Deliveries(s, Head(s, w));
            && w in t.workers
            && t.workers[w] == if outcome.Replied? && count >= MAX_RETRIES then s.workers[w].(phase := Bury(count))
                               else Worker(s.workers[w].todo[1..], Look)
  {
  }

  lemma AfterStart(cfg: Config, s: Stream, w: nat, claimed: set<nat>)
    requires Readable(s) && w !in s.workers && Claimable(s, claimed)
    ensures var t := Next(cfg, s, Start(w, claimed)); w in t.workers && t.workers[w] == IDLE
  {
  }

  lemma AfterRead(cfg: Config, s: Stream, w: nat, outcome: Outcome)
    requires Readable(s) && w in s.workers && !Busy(s, w)
    ensures var t := Next(cfg, s, Read(w, outcome));
            && w in t.workers
            && t.workers[w] == if outcome.Replied? then Worker(Batch(s), Look) else s.workers[w]
  {
  }

  lemma IdleLooks(cfg: Config, s: Stream, w: nat)
    requires Sound(cfg, s) && w in s.workers && !Busy(s, w)
    ensures s.workers[w] == IDLE
  {
    hide Readable, Partition, Timed, Explained, DeadSound, CalledOnce, Alone;
    assert WorkerSound(cfg, s, s.workers[w]);
  }

  lemma HeadInLog(s: Stream, w: nat)
    requires Readable(s) && Busy(s, w)
    ensures Head(s, w) < |s.log|
  {
  }

  /** XPENDING for one entry. */
  function Deliveries(s: Stream, id: nat): nat {
    if id in s.pending then s.pending[id].count else 0
  }

  class Consumer {
    const id: nat
    const cfg: Config
    /** The group as it is on the server. */
    var s: Stream
    var running: bool
    /** Every step so far, by anyone, from the group this consumer found. */
    ghost const found: Stream
    ghost var trace: seq<Step>

    ghost predicate Valid()
      reads this
    {
      Sound(cfg, found) && s == Run(cfg, found, trace) && Sound(cfg, s)
    }

    constructor (id: nat, cfg: Config, s: Stream)
      requires Sound(cfg, s)
      ensures Valid() && this.id == id && this.cfg == cfg && this.s == s && trace == [] && !running
    {
      this.id, this.cfg, this.s, running := id, cfg, s, false;
      found, trace := s, [];
    }

    /** One step of the protocol, by whoever takes it. */
    method Take(step: Step)
      requires Valid()
      modifies this`s, this`trace
      ensures Valid() && trace == old(trace) + [step]
      ensures s == Next(cfg, old(s), step) && Extends(old(s), s)
    {
      RunSnoc(cfg, found, trace, step);
      NextSound(cfg, s, step);
      NextExtends(cfg, s, step);
      s := Next(cfg, s, step);
      trace := trace + [step];
    }

    /** Any number of steps of others. */
    method OthersMove()
      requires Valid()
      modifies this`s, this`trace
      ensures Valid() && old(trace) <= trace
      ensures Extends(old(s), s)
      ensures (id in s.workers <==> id in old(s.workers)) && (id in s.workers ==> s.workers[id] == old(s.workers[id]))
    {
      var more: nat := *;
      ExtendsRefl(s);
      while more > 0
        invariant Valid() && old(trace) <= trace
        invariant Extends(old(s), s)
        invariant (id in s.workers <==> id in old(s.workers)) && (id in s.workers ==> s.workers[id] == old(s.workers[id]))
      {
        hide Next, Sound, Extends;
        var step: Step := *;
        if By(step) != Some(id) {
          SoundReadable(cfg, s);
          OthersKept(cfg, s, step, id);
          ghost var before := s;
          Take(step);
          ExtendsTrans(old(s), before, s);
        }
        more := more - 1;
      }
    }

    /** Claims stale entries, of which nothing but their number is used, then reads batch after batch until
        stopped; `rounds` cuts the loop off. */
    method Start(claimed: set<nat>, rounds: nat)
      requires Valid() && id !in s.workers
      modifies this`s, this`trace, this`running
      ensures Valid() && old(trace) <= trace && Extends(old(s), s)
      ensures id in s.workers && !Busy(s, id)
    {
      ClaimStale(claimed);
      running := true;
      var round := 0;
      hide Sound, Extends, Run;
      while running && round < rounds
        invariant Valid() && old(trace) <= trace && Extends(old(s), s)
        invariant id in s.workers && !Busy(s, id)
      {
        ghost var before := s;
        var _, _ := ProcessNextBatch();
        ExtendsTrans(old(s), before, s);
        running := *;
        round := round + 1;
      }
    }

    /** The consumer joins the group, and claims what is stale of the given entries. */
    method ClaimStale(claimed: set<nat>)
      requires Valid() && id !in s.workers
      modifies this`s, this`trace
      ensures Valid() && old(trace) <= trace && Extends(old(s), s)
      ensures id in s.workers && !Busy(s, id)
    {
      var taken := if Claimable(s, claimed) then claimed else {};
      SoundReadable(cfg, s);
      AfterStart(cfg, s, id, taken);
      hide Next, Sound, Extends, Run;
      Take(BillingStream.Start(id, taken));
    }

    /** Reads a batch and deals with its entries in turn. `finished` tells whether it came to the end of
        the batch: a read that fails, or a dropped entry that cannot be acknowledged, ends it early. */
    method ProcessNextBatch() returns (batch: seq<nat>, finished: bool)
      requires Valid() && id in s.workers && !Busy(s, id)
      modifies this`s, this`trace
      ensures Valid() && old(trace) <= trace && Extends(old(s), s)
      ensures id in s.workers && !Busy(s, id)
      ensures finished ==> forall k | 0 <= k < |batch| :: Dealt(batch[k])
    {
      hide Next, Sound, Extends, Run;
      OthersMove();
      ghost var s1 := s;
      var outcome: Outcome := *;
      batch := ReadGroup(outcome);
      ExtendsTrans(old(s), s1, s);
      if !outcome.Replied? {
        return [], false;
      }
      var i := 0;
      while i < |batch|
        invariant 0 <= i <= |batch|
        invariant Valid() && old(trace) <= trace && Extends(old(s), s)
        invariant id in s.workers && s.workers[id] == Worker(batch[i..], Look)
        invariant forall k | 0 <= k < i :: Dealt(batch[k])
      {
        ghost var before := s;
        var ok := ProcessEntry(batch[i]);
        ExtendsTrans(old(s), before, s);
        StillDealt(before, batch[..i]);
        if !ok {
          return batch, false;
        }
        assert batch[i..][1..] == batch[i + 1..];
        i := i + 1;
      }
      finished := true;
    }

    method ReadGroup(outcome: Outcome) returns (batch: seq<nat>)
      requires Valid() && id in s.workers && !Busy(s, id)
      modifies this`s, this`trace
      ensures Valid() && old(trace) <= trace && Extends(old(s), s)
      ensures id in s.workers && s.workers[id] == Worker(batch, Look)
      ensures !outcome.Replied? ==> batch == []
    {
      hide Next, Sound, Extends, Run;
      SoundReadable(cfg, s);
      IdleLooks(cfg, s, id);
      AfterRead(cfg, s, id, outcome);
      batch := if outcome.Replied? then Batch(s) else [];
      Take(Read(id, outcome));
    }

    /** The handler was called for an entry that has one, and any other entry was acknowledged. */
    ghost predicate Dealt(entry: nat)
      reads this
    {
      entry < |s.log| && if HasHandler(cfg, s.log[entry]) then entry in s.called else entry in s.acked
    }

    lemma StillDealt(before: Stream, entries: seq<nat>)
      requires Extends(before, s)
      requires forall k | 0 <= k < |entries| :: entries[k] < |before.log| &&
                 if HasHandler(cfg, before.log[entries[k]]) then entries[k] in before.called else entries[k] in before.acked
      ensures forall k | 0 <= k < |entries| :: Dealt(entries[k])
    {
      ExtendsSettled(before, s);
      hide HasHandler;
    }

    /** Parses the entry, then acknowledges it unhandled or calls its handler. An error of the handler, or
        of the acknowledgment after it, leads to the dead-letter check; an error of the other
        acknowledgment is thrown, out of the batch. */
    method ProcessEntry(entry: nat) returns (ok: bool)
      requires Valid() && Busy(s, id) && Head(s, id) == entry && s.workers[id].phase == Look
      modifies this`s, this`trace
      ensures Valid() && old(trace) <= trace && Extends(old(s), s) && id in s.workers
      ensures ok ==> s.workers[id] == Worker(old(s.workers[id].todo)[1..], Look) && Dealt(entry)
      ensures !ok ==> !Busy(s, id)
    {
      hide Next, Sound, Extends, Run, Dropped, Parsed, HasHandler;
      var dropped := InspectEntry(entry);
      ghost var s1 := s;
      ok := true;
      if dropped {
        ok := AckSkipped(entry);
      } else {
        CallHandler(entry);
      }
      ExtendsTrans(old(s), s1, s);
    }

    /** Whether the entry is to be dropped: no event in it, or none with a handler. */
    method InspectEntry(entry: nat) returns (dropped: bool)
      requires Valid() && Busy(s, id) && Head(s, id) == entry && s.workers[id].phase == Look
      modifies this`s, this`trace
      ensures Valid() && old(trace) <= trace && Extends(old(s), s)
      ensures id in s.workers && s.workers[id] == old(s.workers[id]).(phase := if dropped then Skip else Call)
      ensures s.log == old(s.log) && entry < |s.log| && (dropped <==> !HasHandler(cfg, s.log[entry]))
    {
      SoundReadable(cfg, s);
      HeadInLog(s, id);
      AfterInspect(cfg, s, id);
      DroppedExactly(cfg, s.log[entry]);
      hide Next, Sound, Extends, Run, Parsed, HasHandler;
      var event := ParseEntry(cfg, s.log[entry]);
      dropped := event.None? || event.value.eventType !in cfg.handlers;
      Take(Inspect(id));
    }

    method Send() returns (outcome: Outcome)
      requires Valid() && Busy(s, id) && s.workers[id].phase in {Skip, Done, Close}
      modifies this`s, this`trace
      ensures Valid() && old(trace) <= trace && Extends(old(s), s) && id in s.workers
      ensures var worker := old(s.workers[id]);
              && (outcome.Replied? || worker.phase == Close ==> s.workers[id] == Worker(worker.todo[1..], Look))
              && (!outcome.Replied? && worker.phase == Done ==> s.workers[id] == worker.(phase := Count))
              && (!outcome.Replied? && worker.phase == Skip ==> s.workers[id] == IDLE)
              && (outcome.Replied? ==> worker.todo[0] in s.acked)
    {
      hide Next, Sound, Extends, Run;
      OthersMove();
      ghost var before := s;
      outcome := *;
      SoundReadable(cfg, s);
      AckEffect(cfg, s, id, outcome);
      Take(Ack(id, outcome));
      ExtendsTrans(old(s), before, s);
    }

    method AckSkipped(entry: nat) returns (ok: bool)
      requires Valid() && Busy(s, id) && Head(s, id) == entry && s.workers[id].phase == Skip
      modifies this`s, this`trace
      ensures Valid() && old(trace) <= trace && Extends(old(s), s) && id in s.workers
      ensures ok ==> s.workers[id] == Worker(old(s.workers[id].todo)[1..], Look) && entry in s.acked
      ensures !ok ==> !Busy(s, id)
    {
      hide Next, Sound, Extends, Run;
      var outcome := Send();
      ok := outcome.Replied?;
    }

    method CallHandler(entry: nat)
      requires Valid() && Busy(s, id) && Head(s, id) == entry && s.workers[id].phase == Call
      modifies this`s, this`trace
      ensures Valid() && old(trace) <= trace && Extends(old(s), s) && id in s.workers
      ensures s.workers[id] == Worker(old(s.workers[id].todo)[1..], Look) && entry in s.called
    {
      hide Next, Sound, Extends, Run;
      OthersMove();
      ghost var s1 := s;
      var ok: bool := *;
      SoundReadable(cfg, s);
      HandleEffect(cfg, s, id, ok);
      Take(Handle(id, ok));
      ghost var s2 := s;
      if ok {
        var outcome := Send();
        ok := outcome.Replied?;
      } else {
        ExtendsRefl(s);
      }
      ghost var s3 := s;
      if !ok {
        MaybeMoveToDlq();
      } else {
        ExtendsRefl(s);
      }
      ExtendsTrans(old(s), s1, s2);
      ExtendsTrans(old(s), s2, s3);
      ExtendsTrans(s2, s3, s);
      ExtendsSettled(s2, s);
      ExtendsTrans(old(s), s2, s);
    }

    /** A dead letter if delivered often enough, and left pending otherwise; errors end it silently. */
    method MaybeMoveToDlq()
      requires Valid() && Busy(s, id) && s.workers[id].phase == Count
      modifies this`s, this`trace
      ensures Valid() && old(trace) <= trace && Extends(old(s), s) && id in s.workers
      ensures s.workers[id] == Worker(old(s.workers[id].todo)[1..], Look)
    {
      hide Next, Sound, Extends, Run;
      OthersMove();
      ghost var s1 := s;
      var outcome: Outcome := *;
      var count := Deliveries(s, Head(s, id));
      SoundReadable(cfg, s);
      AfterCheck(cfg, s, id, outcome);
      Take(Check(id, outcome));
      ExtendsTrans(old(s), s1, s);
      if outcome.Replied? && count >= MAX_RETRIES {
        ghost var s2 := s;
        var added := AddToDlq();
        ExtendsTrans(old(s), s2, s);
        if added {
          ghost var s3 := s;
          var closed := Send();
          ExtendsTrans(old(s), s3, s);
        }
      }
    }

    method AddToDlq() returns (added: bool)
      requires Valid() && Busy(s, id) && s.workers[id].phase.Bury?
      modifies this`s, this`trace
      ensures Valid() && old(trace) <= trace && Extends(old(s), s) && id in s.workers
      ensures s.workers[id] == if added then old(s.workers[id]).(phase := Close) else Worker(old(s.workers[id].todo)[1..], Look)
    {
      hide Next, Sound, Extends, Run;
      OthersMove();
      ghost var s1 := s;
      var outcome: Outcome := *;
      SoundReadable(cfg, s);
      AddDeadEffect(cfg, s, id, outcome);
      Take(AddDead(id, outcome));
      ExtendsTrans(old(s), s1, s);
      added := outcome.Replied?;
    }
  }
}
