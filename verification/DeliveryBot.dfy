/** deliverReadyTelegramJobs as the poller runs it: tables and a memo that are updated in place, a
    try block, a catch block, and a loop over the batch. Every method is proved against the row
    functions of DeliveryRow, so what holds of every run of a row holds of the bot. */
module DeliveryBot {
  import opened Wrappers
  import opened ClipDelivery
  import opened DeliveryRow

  /** A telegram_deliveries row. */
  datatype Delivery = Delivery(status: Status, attempts: nat, board: bool)

  /** The job a delivery belongs to (there is one delivery per job) and its clip rows. */
  datatype Job = Job(status: JobStatus, finished: bool, clips: seq<Clip>)

  class Bot {
    var deliveries: map<string, Delivery>
    var jobs: map<string, Job>
    var owedWrites: map<string, OwedWrite>
    ghost var log: map<string, seq<Event>>

    constructor ()
      ensures Valid() && deliveries == map[]
    {
      deliveries, jobs, owedWrites, log := map[], map[], map[], map[];
    }

    ghost predicate Valid()
      reads this
    {
      && jobs.Keys == deliveries.Keys && log.Keys == deliveries.Keys && owedWrites.Keys <= deliveries.Keys
      && forall id :: id in jobs && jobs[id].status == JobDone ==> jobs[id].finished
    }

    ghost predicate Knows(id: string)
      reads this
    {
      Valid() && id in deliveries
    }

    /** Everything keyed by one delivery. */
    ghost function RowOf(id: string): Row
      reads this
      requires Knows(id)
    {
      Row(deliveries[id].status, deliveries[id].attempts, jobs[id].status, jobs[id].finished, jobs[id].clips,
          deliveries[id].board, if id in owedWrites then Some(owedWrites[id]) else None, log[id])
    }

    /** Everything that is not keyed by it. */
    ghost function Rest(id: string)
      : (map<string, Delivery>, map<string, Job>, map<string, OwedWrite>, map<string, seq<Event>>)
      reads this
    {
      (deliveries - {id}, jobs - {id}, owedWrites - {id}, log - {id})
    }

    ghost method Record(id: string, e: Event)
      requires Knows(id)
      modifies this`log
      ensures Knows(id) && RowOf(id) == Note(old(RowOf(id)), e) && Rest(id) == old(Rest(id))
    {
      Aside(log, id, log[id] + [e]);
      log := log[id := log[id] + [e]];
    }

    /** createTelegramDelivery, for a job no delivery exists for. */
    method Create(id: string, board: bool)
      requires Valid() && id !in deliveries
      modifies this
      ensures Knows(id) && RowOf(id) == Created(board) && Rest(id) == old(Rest(id))
    {
      Aside(deliveries, id, Delivery(PENDING, 0, board));
      Aside(jobs, id, Job(Running, false, []));
      Aside(log, id, [Opened(ByCreation, false)]);
      deliveries := deliveries[id := Delivery(PENDING, 0, board)];
      jobs := jobs[id := Job(Running, false, [])];
      log := log[id := [Opened(ByCreation, false)]];
    }

    /** A worker writes the job; the clips are its to write until the job was done once. */
    method WriteJob(id: string, status: JobStatus, clips: seq<Clip>)
      requires Knows(id)
      modifies this
      ensures Knows(id) && RowOf(id) == MoveJob(old(RowOf(id)), status, clips) && Rest(id) == old(Rest(id))
    {
      ghost var before := RowOf(id);
      var finished := jobs[id].finished;
      var job := Job(status, finished || status == JobDone, if finished then jobs[id].clips else clips);
      Aside(jobs, id, job);
      jobs := jobs[id := job];
      if Healed(RowOf(id)) && !Healed(before) {
        Record(id, Opened(ByHeal, id in owedWrites));
      }
    }

    /** prisma.telegramDelivery.update on status and attempts. */
    method UpdateStatus(id: string, status: Status, attempts: nat, ghost e: Event, w: Write)
      returns (threw: Option<string>)
      requires Knows(id)
      modifies this
      ensures Knows(id) && RowOf(id) == StatusWrite(old(RowOf(id)), status, attempts, e, w) && Rest(id) == old(Rest(id))
      ensures threw == if w.Stored? then None else Some(w.message)
    {
      if w.Applied() {
        ghost var before := RowOf(id);
        Aside(deliveries, id, deliveries[id].(status := status, attempts := attempts));
        deliveries := deliveries[id := deliveries[id].(status := status, attempts := attempts)];
        Record(id, e);
        if Healed(RowOf(id)) && !Healed(before) {
          Record(id, Opened(ByHeal, false));
        }
      }
      match w {
        case Stored => threw := None;
        case Threw(message, _) =>
          Record(id, StatusWriteFailed);
          threw := Some(message);
      }
    }

    method FlushOwedWrite(id: string, owed: OwedWrite, w: Write) returns (threw: Option<string>)
      requires Knows(id)
      modifies this
      ensures Knows(id) && RowOf(id) == FlushOwed(old(RowOf(id)), owed, w) && Rest(id) == old(Rest(id))
      ensures threw.None? <==> w.Stored?
    {
      if owed == OweDelivered {
        threw := UpdateStatus(id, DELIVERED, 0, Wrote(DELIVERED), w);
      } else if owed == OweFailureNotified {
        threw := UpdateStatus(id, FAILURE_NOTIFIED, 0, Wrote(FAILURE_NOTIFIED), w);
      } else {
        threw := UpdateStatus(id, FAILED, deliveries[id].attempts, Wrote(FAILED), w);
      }
    }

    /** Record the outcome, then write it. Never throws. */
    method SettleDelivery(id: string, owed: OwedWrite, w: Write) returns (settled: bool)
      requires Knows(id)
      modifies this
      ensures Knows(id) && RowOf(id) == Settle(old(RowOf(id)), owed, w) && Rest(id) == old(Rest(id))
      ensures settled <==> w.Stored?
    {
      Aside(owedWrites, id, owed);
      owedWrites := owedWrites[id := owed];
      assert RowOf(id) == old(RowOf(id)).(owed := Some(owed));
      var threw := FlushOwedWrite(id, owed, w);
      if threw.None? {
        Aside(owedWrites, id, owed);
        owedWrites := owedWrites - {id};
      }
      settled := threw.None?;
    }

    method MarkAttemptFailed(id: string, attemptsSoFar: nat, w: Write)
      returns (terminal: bool, threw: Option<string>)
      requires Knows(id)
      modifies this
      ensures Knows(id) && RowOf(id) == AttemptFailed(old(RowOf(id)), attemptsSoFar, w) && Rest(id) == old(Rest(id))
      ensures terminal == Terminal(attemptsSoFar)
      ensures threw == if w.Stored? then None else Some(w.message)
    {
      terminal := attemptsSoFar + 1 >= MAX_ATTEMPTS;
      var status := if terminal then FAILED else deliveries[id].status;
      threw := UpdateStatus(id, status, deliveries[id].attempts + 1, Counted, w);
    }

    /** What the update loop and the workers do to the row in a gap of the pass. */
    method LandAll(id: string, gap: seq<Interruption>)
      requires Knows(id)
      modifies this
      ensures Knows(id) && RowOf(id) == Interrupt(old(RowOf(id)), gap) && Rest(id) == old(Rest(id))
    {
      hide Rest, Rearm, MoveJob;
      var i := 0;
      while i < |gap|
        invariant 0 <= i <= |gap|
        invariant Knows(id) && RowOf(id) == Interrupt(old(RowOf(id)), gap[..i]) && Rest(id) == old(Rest(id))
      {
        match gap[i] {
          case Pressed =>
            var _ := RearmForResend(id, true, Stored);
          case Moved(job, clips) =>
            WriteJob(id, job, clips);
        }
        assert gap[..i + 1][..i] == gap[..i];
        i := i + 1;
      }
      assert gap[..i] == gap;
    }

    /** rearmDeliveryForResend: None when the update threw. */
    method RearmForResend(id: string, ownRow: bool, w: Write) returns (rearmed: Option<bool>)
      requires Knows(id)
      modifies this
      ensures Knows(id) && RowOf(id) == Next(old(RowOf(id)), ResendPress(ownRow, w)) && Rest(id) == old(Rest(id))
      ensures rearmed == if !ownRow then Some(false) else if w.Stored? then Some(true) else None
    {
      if !ownRow {
        return Some(false);
      }
      if w.Applied() {
        Aside(deliveries, id, deliveries[id].(status := PENDING, attempts := 0));
        deliveries := deliveries[id := deliveries[id].(status := PENDING, attempts := 0)];
        Record(id, Opened(ByPress, id in owedWrites));
      }
      rearmed := if w.Stored? then Some(true) else None;
    }

    /** prisma.clip.update, as far as the pass writes it. */
    method WriteClip(id: string, i: nat, clip: Clip)
      requires Knows(id) && i < |RowOf(id).clips|
      modifies this`jobs
      ensures Knows(id) && Rest(id) == old(Rest(id))
      ensures RowOf(id) == old(RowOf(id)).(clips := old(RowOf(id)).clips[i := clip])
    {
      Aside(jobs, id, jobs[id].(clips := jobs[id].clips[i := clip]));
      jobs := jobs[id := jobs[id].(clips := jobs[id].clips[i := clip])];
    }

    /** The clip loop over the clips the query returned: it writes the clip table as it goes, and stops
        at the first throw it does not catch. */
    method SendClipsInOrder(id: string, clips: seq<Clip>, env: seq<ClipEnv>, maxBytes: nat)
      returns (delivered: nat, pending: nat, unsendable: nat, escaped: Option<string>)
      requires Knows(id) && RowOf(id).clips == clips
      modifies this`jobs
      ensures Knows(id) && Rest(id) == old(Rest(id))
      ensures var p := DeliverClips(clips, env, maxBytes);
              && RowOf(id) == old(RowOf(id)).(clips := p.clips)
              && delivered == p.delivered && pending == p.pending && unsendable == p.unsendable && escaped == p.escaped
    {
      hide ClipStep, EnvAt, Valid, Rest;
      delivered, pending, unsendable, escaped := 0, 0, 0, None;
      var i := 0;
      while i < |clips| && escaped.None?
        invariant i <= |clips|
        invariant Knows(id) && Rest(id) == old(Rest(id))
        invariant var p := DeliverPrefix(clips, env, maxBytes, i);
                  && RowOf(id) == old(RowOf(id)).(clips := p.clips)
                  && delivered == p.delivered && pending == p.pending && unsendable == p.unsendable
                  && escaped == p.escaped
        decreases |clips| - i
      {
        var r := ClipStep(clips[i], EnvAt(env, i), maxBytes);
        WriteClip(id, i, r.clip);
        match r.verdict {
          case Skipped =>
          case Delivered => delivered := delivered + 1;
          case Pending => pending := pending + 1;
          case Unsendable => unsendable := unsendable + 1;
          case Escaped(message) => escaped := Some(message);
        }
        i := i + 1;
      }
      EscapedPassStops(clips, env, maxBytes, i, |clips|);
    }

    /** Behind a confirmed outcome message: take the board down, then settle. */
    method FinishRow(id: string, owed: OwedWrite, e: PassEnv)
      requires Knows(id)
      modifies this
      ensures Knows(id) && RowOf(id) == Finish(old(RowOf(id)), owed, e) && Rest(id) == old(Rest(id))
    {
      hide Interrupt, Settle;
      if deliveries[id].board {
        Record(id, BoardRemoval);
      }
      LandAll(id, e.gaps.beforeSettle);
      var _ := SettleDelivery(id, owed, e.settleWrite);
    }

    /** Post an outcome message and, once it is confirmed, finish the row. */
    method SendOutcome(id: string, m: Message, owed: OwedWrite, e: PassEnv) returns (threw: Option<string>)
      requires Knows(id)
      modifies this
      ensures Knows(id) && Rest(id) == old(Rest(id))
      ensures Attempt(RowOf(id), threw) == Conclude(old(RowOf(id)), m, owed, e)
    {
      hide Finish, Interrupt;
      LandAll(id, e.gaps.beforeMessage);
      match e.summary {
        case Unconfirmed(message) => return Some(message);
        case Confirmed =>
      }
      Record(id, Said(m));
      FinishRow(id, owed, e);
      threw := None;
    }

    method SendSummary(id: string, inChat: nat, total: nat, e: PassEnv) returns (threw: Option<string>)
      requires Knows(id)
      modifies this
      ensures Knows(id) && Rest(id) == old(Rest(id))
      ensures Attempt(RowOf(id), threw) == Summarise(old(RowOf(id)), inChat, total, e)
    {
      hide Conclude;
      if inChat == total {
        threw := SendOutcome(id, Done(total), if inChat < total then OweFailed else OweDelivered, e);
      } else if inChat > 0 {
        threw := SendOutcome(id, Partial(inChat, total), if inChat < total then OweFailed else OweDelivered, e);
      } else {
        threw := SendOutcome(id, GivenUp(total), if inChat < total then OweFailed else OweDelivered, e);
      }
    }

    /** The clips branch of the try block. */
    method DeliverJobClips(id: string, seen: Seen, e: PassEnv) returns (threw: Option<string>)
      requires Knows(id) && RowOf(id).clips == seen.clips
      modifies this
      ensures Knows(id) && Attempt(RowOf(id), threw) == SendClips(old(RowOf(id)), seen, e) && Rest(id) == old(Rest(id))
    {
      hide Conclude, DeliverClips, Interrupt, AttemptFailed;
      var recorded := CountRecorded(seen.clips);
      var delivered, pending, unsendable, escaped := SendClipsInOrder(id, seen.clips, e.clips, e.maxBytes);
      if escaped.Some? {
        return escaped;
      }
      if pending > 0 {
        LandAll(id, e.gaps.beforeAttempt);
        var terminal, attemptThrew := MarkAttemptFailed(id, seen.attempts, e.attemptWrite);
        if attemptThrew.Some? || !terminal {
          return attemptThrew;
        }
      }
      threw := SendSummary(id, recorded + delivered, |seen.clips|, e);
    }

    method Try(id: string, seen: Seen, e: PassEnv) returns (threw: Option<string>)
      requires Knows(id) && (seen.job != JobFailed ==> RowOf(id).clips == seen.clips)
      modifies this
      ensures Knows(id) && Attempt(RowOf(id), threw) == TryBody(old(RowOf(id)), seen, e) && Rest(id) == old(Rest(id))
    {
      hide Conclude, SendClips;
      if e.locale.Some? {
        threw := e.locale;
      } else if seen.job == JobFailed {
        threw := SendOutcome(id, FailureNotice, OweFailureNotified, e);
      } else if |seen.clips| == 0 {
        threw := SendOutcome(id, NoClips, OweDelivered, e);
      } else {
        threw := DeliverJobClips(id, seen, e);
      }
    }

    /** Nothing gets out of here: the settle never throws, and the attempt counter and the notice
        have their own catch. */
    method Catch(id: string, seen: Seen, message: string, e: PassEnv)
      requires Knows(id)
      modifies this
      ensures Knows(id) && RowOf(id) == CatchBody(old(RowOf(id)), seen, message, e) && Rest(id) == old(Rest(id))
    {
      hide Interrupt, AttemptFailed, Settle, IsPermanentTelegramError;
      LandAll(id, e.gaps.beforeCatch);
      if IsPermanentTelegramError(message) {
        var _ := SettleDelivery(id, OweFailed, e.settleWrite);
        return;
      }
      var terminal, threw := MarkAttemptFailed(id, seen.attempts, e.catchWrite);
      if threw.None? && terminal {
        LandAll(id, e.gaps.beforeNotice);
        if e.notice.Confirmed? {
          Record(id, Said(GivenUp(|seen.clips|)));
        }
      }
    }

    method FlushRow(id: string, owed: OwedWrite, e: PassEnv)
      requires Knows(id) && RowOf(id).owed == Some(owed)
      modifies this
      ensures Knows(id) && RowOf(id) == FlushPass(old(RowOf(id)), owed, e) && Rest(id) == old(Rest(id))
    {
      hide FlushOwed;
      var threw := FlushOwedWrite(id, owed, e.settleWrite);
      if threw.None? {
        Aside(owedWrites, id, owed);
        owedWrites := owedWrites - {id};
      }
    }

    /** One iteration of the batch loop, on what the query returned of the row. */
    method DeliverRow(id: string, seen: Seen, e: PassEnv)
      requires Knows(id) && Pickable(RowOf(id)) && seen == SeenOf(RowOf(id))
      modifies this
      ensures Knows(id) && RowOf(id) == RowPass(old(RowOf(id)), e) && Rest(id) == old(Rest(id))
    {
      hide TryBody, CatchBody, FlushPass, Interrupt;
      Record(id, Picked);
      ghost var picked := RowOf(id);
      InterruptFrame(picked, e.gaps.beforeTurn);
      LandAll(id, e.gaps.beforeTurn);
      if id in owedWrites {
        FlushRow(id, owedWrites[id], e);
        return;
      }
      var threw := Try(id, seen, e);
      if threw.Some? {
        Catch(id, seen, threw.value, e);
      }
    }

    /** Every row is as it was, or as its own pass alone leaves it if it is among `done`. */
    ghost predicate RowsAre(was: map<string, Row>, alone: map<string, Row>, done: set<string>)
      reads this
    {
      && Valid() && deliveries.Keys == was.Keys && done <= alone.Keys
      && forall id :: id in deliveries ==> RowOf(id) == if id in done then alone[id] else was[id]
    }

    method DeliverNext(id: string, seen: Seen, e: PassEnv, ghost was: map<string, Row>,
                       ghost alone: map<string, Row>, ghost done: set<string>)
      requires RowsAre(was, alone, done)
      requires id in deliveries && id !in done && id in alone && alone[id] == RowPass(was[id], e)
      requires Pickable(was[id]) && seen == SeenOf(was[id])
      modifies this
      ensures RowsAre(was, alone, done + {id})
    {
      hide RowPass, Pickable, Rest, SeenOf;
      assert RowOf(id) == was[id];
      DeliverRow(id, seen, e);
      assert RowOf(id) == alone[id];
      RestFixesOthers(id);
    }

    /** One poll: one query, then the rows of its batch one after the other, each on what the query
        returned of it. Whatever the answers to the other rows are, each row ends as if it had been
        polled alone, and a row outside the batch is not touched. What lands on a row while earlier
        rows are being delivered lands ahead of its turn; what lands on it after its turn is the next
        step of its run. */
    method DeliverReadyTelegramJobs(batch: seq<string>, env: map<string, PassEnv>)
      requires Valid()
      requires forall i, j :: 0 <= i < j < |batch| ==> batch[i] != batch[j]
      requires forall id :: id in batch ==> id in deliveries && id in env && Pickable(RowOf(id))
      modifies this
      ensures Valid() && deliveries.Keys == old(deliveries.Keys)
      ensures forall id :: id in deliveries ==>
        RowOf(id) == if id in batch then RowPass(old(RowOf(id)), env[id]) else old(RowOf(id))
    {
      hide RowPass;
      var seen := map id | id in batch :: Seen(jobs[id].status, deliveries[id].attempts, jobs[id].clips);
      ghost var was := map id | id in deliveries :: RowOf(id);
      ghost var alone := PassAll(was, batch, env);
      assert forall id :: id in batch ==> id in was && id in seen && id in alone;
      assert forall id :: id in batch ==>
        seen[id] == SeenOf(was[id]) && Pickable(was[id]) && alone[id] == RowPass(was[id], env[id]);
      DeliverBatch(batch, seen, env, was, alone);
      assert forall id :: id in batch <==> id in Members(batch);
    }

    method DeliverBatch(batch: seq<string>, seen: map<string, Seen>, env: map<string, PassEnv>,
                        ghost was: map<string, Row>, ghost alone: map<string, Row>)
      requires forall i, j :: 0 <= i < j < |batch| ==> batch[i] != batch[j]
      requires RowsAre(was, alone, {})
      requires forall id :: id in batch ==> id in was && id in seen && id in env && id in alone
      requires forall id :: id in batch ==>
        seen[id] == SeenOf(was[id]) && Pickable(was[id]) && alone[id] == RowPass(was[id], env[id])
      modifies this
      ensures RowsAre(was, alone, Members(batch))
    {
      hide RowPass, Pickable;
      ghost var done: set<string> := {};
      var i := 0;
      while i < |batch|
        invariant i <= |batch|
        invariant done == Members(batch[..i])
        invariant RowsAre(was, alone, done)
      {
        OneMoreMember(batch, i);
        DeliverNext(batch[i], seen[batch[i]], env[batch[i]], was, alone, done);
        done := done + {batch[i]};
        i := i + 1;
      }
      assert batch[..i] == batch;
    }

    twostate lemma RestFixesOthers(id: string)
      requires old(Knows(id)) && Knows(id) && Rest(id) == old(Rest(id))
      ensures deliveries.Keys == old(deliveries.Keys)
      ensures forall other :: other in deliveries && other != id ==> RowOf(other) == old(RowOf(other))
    {
      assert deliveries.Keys == (deliveries - {id}).Keys + {id};
      assert old(deliveries).Keys == (old(deliveries) - {id}).Keys + {id};
      forall other | other in deliveries && other != id
        ensures RowOf(other) == old(RowOf(other))
      {
        assert deliveries[other] == (deliveries - {id})[other] == old(deliveries)[other];
        assert jobs[other] == (jobs - {id})[other] == old(jobs)[other];
        assert log[other] == (log - {id})[other] == old(log)[other];
        assert other in owedWrites <==> other in owedWrites - {id};
        assert other in old(owedWrites) <==> other in old(owedWrites) - {id};
      }
    }
  }

  /** The pass of each row of the batch, alone. */
  ghost function PassAll(was: map<string, Row>, batch: seq<string>, env: map<string, PassEnv>): map<string, Row> {
    map id | id in batch && id in was && id in env :: RowPass(was[id], env[id])
  }

  ghost function Members(batch: seq<string>): set<string> {
    set id | id in batch
  }

  lemma OneMoreMember(batch: seq<string>, i: nat)
    requires i < |batch| && forall i, j :: 0 <= i < j < |batch| ==> batch[i] != batch[j]
    ensures Members(batch[..i + 1]) == Members(batch[..i]) + {batch[i]}
    ensures batch[i] !in Members(batch[..i])
  {
  }

  /** What is kept under other keys does not notice an update or a removal of k. */
  lemma Aside<V>(m: map<string, V>, k: string, v: V)
    ensures m[k := v] - {k} == m - {k} == m - {k} - {k}
  {
  }

  /** A pass that threw at clip i stays where it was. */
  lemma {:induction false} EscapedPassStops(clips: seq<Clip>, env: seq<ClipEnv>, maxBytes: nat, i: nat, n: nat)
    requires i <= n <= |clips|
    requires i == n || DeliverPrefix(clips, env, maxBytes, i).escaped.Some?
    ensures DeliverPrefix(clips, env, maxBytes, n) == DeliverPrefix(clips, env, maxBytes, i)
  {
    if i < n {
      EscapedPassStops(clips, env, maxBytes, i, n - 1);
    }
  }
}
