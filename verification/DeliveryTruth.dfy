/** What the chat was told, held against what is in it, over every run of a delivery row. */
module DeliveryTruth {
  import opened Wrappers
  import opened ClipDelivery
  import opened DeliveryRow

  predicate AllRecorded(clips: seq<Clip>) {
    forall i :: 0 <= i < |clips| ==> clips[i].fileId.Some?
  }

  /** Is the message still true of the row? A failure notice and a given-up notice promise nothing
      about the clips. */
  predicate Kept(m: Message, d: Row) {
    match m
    case FailureNotice => true
    case GivenUp(_) => true
    case NoClips => d.finished && d.clips == []
    case Done(total) => d.finished && 0 < total == |d.clips| && AllRecorded(d.clips)
    case Partial(inChat, total) =>
      d.finished && total == |d.clips| && 0 < inChat < total && inChat <= CountRecorded(d.clips)
  }

  predicate MessagesKept(d: Row) {
    forall i :: 0 <= i < |d.log| && d.log[i].Said? ==> Kept(d.log[i].message, d)
  }

  /** The board comes down right after a confirmed outcome message, and never otherwise. */
  predicate BoardAfterWord(log: seq<Event>) {
    forall i :: 0 <= i < |log| && log[i] == BoardRemoval ==> i > 0 && log[i - 1].Said?
  }

  predicate DeliveredMeansAll(d: Row) {
    d.status == DELIVERED || d.owed == Some(OweDelivered) ==> d.finished && AllRecorded(d.clips)
  }

  /** Only clips of a job that has been done are ever sent. */
  predicate SentMeansFinished(d: Row) {
    (d.job == JobDone ==> d.finished) && (!d.finished ==> Unsent(d.clips))
  }

  predicate Truth(d: Row) {
    && ClipsInv(d.clips)
    && MessagesKept(d)
    && BoardAfterWord(d.log)
    && DeliveredMeansAll(d)
    && SentMeansFinished(d)
  }

  lemma NoteTruth(d: Row, e: Event)
    requires Truth(d)
    requires e.Said? ==> Kept(e.message, d)
    requires e == BoardRemoval ==> d.log != [] && d.log[|d.log| - 1].Said?
    ensures Truth(Note(d, e))
  {
  }

  lemma StatusWriteTruth(d: Row, status: Status, attempts: nat, e: Event, w: Write)
    requires Truth(d) && (e.Counted? || e.Wrote?)
    requires status == DELIVERED ==> d.finished && AllRecorded(d.clips)
    ensures Truth(StatusWrite(d, status, attempts, e, w))
  {
    var written := d.(status := status, attempts := attempts);
    if w.Applied() {
      NoteTruth(written, e);
      NoteTruth(Note(written, e), Opened(ByHeal, false));
    }
    NoteTruth(if w.Applied() then NoteHeal(d, Note(written, e), false) else d, StatusWriteFailed);
  }

  lemma FlushTruth(d: Row, owed: OwedWrite, w: Write)
    requires Truth(d) && d.owed == Some(owed)
    ensures Truth(FlushOwed(d, owed, w))
  {
    match owed {
      case OweDelivered => StatusWriteTruth(d, DELIVERED, 0, Wrote(DELIVERED), w);
      case OweFailureNotified => StatusWriteTruth(d, FAILURE_NOTIFIED, 0, Wrote(FAILURE_NOTIFIED), w);
      case OweFailed => StatusWriteTruth(d, FAILED, d.attempts, Wrote(FAILED), w);
    }
  }

  lemma ClearOwed(d: Row)
    requires Truth(d)
    ensures Truth(d.(owed := None))
  {
  }

  lemma SettleTruth(d: Row, owed: OwedWrite, w: Write)
    requires Truth(d)
    requires owed == OweDelivered ==> d.finished && AllRecorded(d.clips)
    ensures Truth(Settle(d, owed, w))
  {
    hide FlushOwed;
    var o := d.(owed := Some(owed));
    FlushTruth(o, owed, w);
    ClearOwed(FlushOwed(o, owed, w));
  }

  lemma LandTruth(d: Row, i: Interruption)
    requires Truth(d) && (i.Moved? ==> Unsent(i.clips))
    ensures Truth(Land(d, i))
  {
    match i {
      case Pressed => NoteTruth(d.(status := PENDING, attempts := 0), Opened(ByPress, d.owed.Some?));
      case Moved(job, clips) =>
        var moved := WithJob(d, job, clips);
        assert MessagesKept(moved);
        NoteTruth(moved, Opened(ByHeal, d.owed.Some?));
    }
  }

  lemma {:induction false} InterruptTruth(d: Row, gap: seq<Interruption>)
    requires Truth(d) && LegalGap(gap)
    ensures Truth(Interrupt(d, gap))
  {
    if gap != [] {
      InterruptTruth(d, gap[..|gap| - 1]);
      LandTruth(Interrupt(d, gap[..|gap| - 1]), gap[|gap| - 1]);
    }
  }

  lemma FinishTruth(d: Row, owed: OwedWrite, e: PassEnv)
    requires Truth(d) && LegalStep(Poll(e)) && d.log != [] && d.log[|d.log| - 1].Said?
    requires owed == OweDelivered ==> d.finished && AllRecorded(d.clips)
    ensures Truth(Finish(d, owed, e))
  {
    var bare := RemoveBoard(d);
    NoteTruth(d, BoardRemoval);
    InterruptTruth(bare, e.gaps.beforeSettle);
    InterruptFrame(bare, e.gaps.beforeSettle);
    SettleTruth(Interrupt(bare, e.gaps.beforeSettle), owed, e.settleWrite);
  }

  /** A message that is true of a finished job is true whatever lands ahead of it. */
  lemma ConcludeTruth(d: Row, m: Message, owed: OwedWrite, e: PassEnv)
    requires Truth(d) && LegalStep(Poll(e)) && Kept(m, d)
    requires owed == OweDelivered ==> d.finished && AllRecorded(d.clips)
    ensures Truth(Conclude(d, m, owed, e).row)
  {
    hide Finish;
    var now := Interrupt(d, e.gaps.beforeMessage);
    InterruptTruth(d, e.gaps.beforeMessage);
    InterruptFrame(d, e.gaps.beforeMessage);
    if e.summary.Confirmed? {
      NoteTruth(now, Said(m));
      FinishTruth(Say(now, m), owed, e);
    }
  }

  lemma {:induction false} RecordedGrows(a: seq<Clip>, b: seq<Clip>)
    requires |a| == |b| && forall i :: 0 <= i < |a| && a[i].fileId.Some? ==> b[i] == a[i]
    ensures CountRecorded(a) <= CountRecorded(b)
  {
    if a != [] {
      RecordedGrows(a[..|a| - 1], b[..|b| - 1]);
    }
  }

  /** A pass only adds file ids, so whatever was true of the row stays true of it. */
  lemma ClipsAdvance(d: Row, e: PassEnv)
    requires Truth(d) && d.finished
    ensures Truth(d.(clips := Sends(d.clips, e).clips))
  {
    PassKeepsClips(d.clips, e.clips, e.maxBytes);
    GrowthKeepsTruth(d, Sends(d.clips, e).clips);
  }

  lemma GrowthKeepsTruth(d: Row, clips: seq<Clip>)
    requires Truth(d) && d.finished && ClipsInv(clips) && |clips| == |d.clips|
    requires forall i :: 0 <= i < |clips| && d.clips[i].fileId.Some? ==> clips[i] == d.clips[i]
    ensures Truth(d.(clips := clips))
  {
    RecordedGrows(d.clips, clips);
    assert AllRecorded(d.clips) ==> AllRecorded(clips);
    assert MessagesKept(d.(clips := clips));
  }

  /** The number a summary names is the number of recorded clips, short by exactly the clips whose
      file id was stored by a write that threw. */
  lemma SummaryIsExact(clips: seq<Clip>, e: PassEnv)
    requires Sends(clips, e).escaped.None?
    ensures var p := Sends(clips, e);
            && InChat(clips, e) + p.unheard == CountRecorded(p.clips)
            && InChat(clips, e) + p.pending + p.unsendable == |clips|
            && (InChat(clips, e) == |clips| ==> AllRecorded(p.clips))
  {
    var p := Sends(clips, e);
    CountersAreExact(clips, e.clips, e.maxBytes, |clips|);
    assert clips[..|clips|] == clips && p.clips[..|p.clips|] == p.clips;
    AllRecordedByCount(p.clips);
  }

  lemma SummariseTruth(d: Row, inChat: nat, e: PassEnv)
    requires Truth(d) && LegalStep(Poll(e)) && d.finished && d.clips != []
    requires inChat <= CountRecorded(d.clips)
    requires inChat == |d.clips| ==> AllRecorded(d.clips)
    ensures Truth(Summarise(d, inChat, |d.clips|, e).row)
  {
    hide Conclude;
    ConcludeTruth(d, Summary(inChat, |d.clips|), if inChat < |d.clips| then OweFailed else OweDelivered, e);
  }

  /** The row is as the query saw it, as far as the clips go. */
  predicate AsSeen(d: Row, seen: Seen) {
    seen.job == JobDone ==> d.finished && d.clips == seen.clips
  }

  lemma SendClipsTruth(d: Row, seen: Seen, e: PassEnv)
    requires Truth(d) && LegalStep(Poll(e)) && seen.job == JobDone && AsSeen(d, seen) && d.status != DELIVERED
    requires seen.clips != []
    ensures Truth(SendClips(d, seen, e).row)
  {
    hide Conclude, AttemptFailed;
    var p := Sends(seen.clips, e);
    var sent := d.(clips := p.clips);
    ClipsAdvance(d, e);
    if p.escaped.None? {
      SummaryIsExact(seen.clips, e);
      var now := Interrupt(sent, e.gaps.beforeAttempt);
      InterruptTruth(sent, e.gaps.beforeAttempt);
      InterruptFrame(sent, e.gaps.beforeAttempt);
      if p.pending == 0 {
        SummariseTruth(sent, InChat(seen.clips, e), e);
      } else {
        AttemptTruth(now, seen.attempts, e.attemptWrite);
        if e.attemptWrite.Stored? && Terminal(seen.attempts) {
          SummariseTruth(AttemptFailed(now, seen.attempts, e.attemptWrite), InChat(seen.clips, e), e);
        }
      }
    }
  }

  lemma AttemptTruth(d: Row, a: nat, w: Write)
    requires Truth(d) && d.status != DELIVERED
    ensures var r := AttemptFailed(d, a, w);
            Truth(r) && r.clips == d.clips && r.finished == d.finished && r.status != DELIVERED
  {
    hide StatusWrite;
    AttemptFrame(d, a, w);
    StatusWriteTruth(d, if Terminal(a) then FAILED else d.status, d.attempts + 1, Counted, w);
  }

  lemma TryTruth(d: Row, seen: Seen, e: PassEnv)
    requires Truth(d) && LegalStep(Poll(e)) && AsSeen(d, seen)
    requires seen.job in {JobFailed, JobDone} && d.status != DELIVERED
    ensures Truth(TryBody(d, seen, e).row)
    ensures TryBody(d, seen, e).threw.Some? ==> TryBody(d, seen, e).row.status != DELIVERED
  {
    hide Conclude, SendClips;
    if e.locale.None? {
      ThrownIsNotDelivered(d, seen, e);
      if seen.job == JobFailed {
        ConcludeTruth(d, FailureNotice, OweFailureNotified, e);
      } else if seen.clips == [] {
        ConcludeTruth(d, NoClips, OweDelivered, e);
      } else {
        SendClipsTruth(d, seen, e);
      }
    }
  }

  lemma ConcludeThrown(d: Row, m: Message, owed: OwedWrite, e: PassEnv)
    requires d.status != DELIVERED
    ensures Conclude(d, m, owed, e).threw.Some? ==> Conclude(d, m, owed, e).row.status != DELIVERED
  {
    InterruptFrame(d, e.gaps.beforeMessage);
  }

  lemma ThrownIsNotDelivered(d: Row, seen: Seen, e: PassEnv)
    requires d.status != DELIVERED
    ensures Conclude(d, FailureNotice, OweFailureNotified, e).threw.Some? ==>
              Conclude(d, FailureNotice, OweFailureNotified, e).row.status != DELIVERED
    ensures Conclude(d, NoClips, OweDelivered, e).threw.Some? ==>
              Conclude(d, NoClips, OweDelivered, e).row.status != DELIVERED
    ensures SendClips(d, seen, e).threw.Some? ==> SendClips(d, seen, e).row.status != DELIVERED
  {
    hide Conclude;
    ConcludeThrown(d, FailureNotice, OweFailureNotified, e);
    ConcludeThrown(d, NoClips, OweDelivered, e);
    var sent := d.(clips := Sends(seen.clips, e).clips);
    var m := Summary(InChat(seen.clips, e), |seen.clips|);
    var owed := if InChat(seen.clips, e) < |seen.clips| then OweFailed else OweDelivered;
    InterruptFrame(sent, e.gaps.beforeAttempt);
    hide AttemptFailed;
    AttemptFrame(Interrupt(sent, e.gaps.beforeAttempt), seen.attempts, e.attemptWrite);
    var counted := AttemptFailed(Interrupt(sent, e.gaps.beforeAttempt), seen.attempts, e.attemptWrite);
    ConcludeThrown(sent, m, owed, e);
    ConcludeThrown(counted, m, owed, e);
  }

  lemma CatchTruth(d: Row, seen: Seen, message: string, e: PassEnv)
    requires Truth(d) && LegalStep(Poll(e)) && d.status != DELIVERED
    ensures Truth(CatchBody(d, seen, message, e))
  {
    hide AttemptFailed, Settle;
    var now := Interrupt(d, e.gaps.beforeCatch);
    InterruptTruth(d, e.gaps.beforeCatch);
    InterruptFrame(d, e.gaps.beforeCatch);
    if IsPermanentTelegramError(message) {
      SettleTruth(now, OweFailed, e.settleWrite);
    } else {
      AttemptTruth(now, seen.attempts, e.catchWrite);
      var counted := AttemptFailed(now, seen.attempts, e.catchWrite);
      InterruptTruth(counted, e.gaps.beforeNotice);
      NoteTruth(Interrupt(counted, e.gaps.beforeNotice), Said(GivenUp(|seen.clips|)));
    }
  }

  lemma PassTruth(d: Row, e: PassEnv)
    requires Truth(d) && LegalStep(Poll(e)) && Pickable(d)
    ensures Truth(RowPass(d, e))
  {
    var picked, turn := Note(d, Picked), AtTurn(d, e);
    NoteTruth(d, Picked);
    InterruptTruth(picked, e.gaps.beforeTurn);
    InterruptFrame(picked, e.gaps.beforeTurn);
    if d.owed.Some? {
      FlushTruth(turn, d.owed.value, e.settleWrite);
      ClearOwed(FlushOwed(turn, d.owed.value, e.settleWrite));
    } else {
      TryTruth(turn, SeenOf(d), e);
      var a := Tried(d, e);
      if a.threw.Some? {
        CatchTruth(a.row, SeenOf(d), a.threw.value, e);
      }
    }
  }

  lemma NextTruth(d: Row, s: Step)
    requires Truth(d) && LegalStep(s)
    ensures Truth(Next(d, s))
  {
    hide RowPass;
    match s {
      case Poll(env) => if Pickable(d) { PassTruth(d, env); }
      case ResendPress(ownRow, w) => LandTruth(d, Pressed);
      case JobMoves(job, clips) => LandTruth(d, Moved(job, clips));
    }
  }

  /** Over every run, with the job's status moving as it likes: DELIVERED (written or owed) means
      every clip of a finished job has a file id, a Done or Partial message in the chat is never a
      broken promise, a board only comes down behind an outcome message, and each clip's copies are
      accounted for. */
  lemma {:induction false} RunTruth(board: bool, steps: seq<Step>)
    requires LegalRun(steps)
    ensures var d := Run(Created(board), steps);
            && Truth(d)
            && forall i :: 0 <= i < |d.clips| ==> CopiesAreAccounted(d.clips[i])
  {
    if steps != [] {
      var front := steps[..|steps| - 1];
      RunTruth(board, front);
      NextTruth(Run(Created(board), front), steps[|steps| - 1]);
    }
    var d := Run(Created(board), steps);
    forall i | 0 <= i < |d.clips|
      ensures CopiesAreAccounted(d.clips[i])
    {
      CopiesAreBounded(d.clips[i]);
    }
  }

  /******* Never again *******/

  lemma FinishKeepsClips(d: Row, owed: OwedWrite, e: PassEnv)
    requires d.finished
    ensures Finish(d, owed, e).clips == d.clips && Finish(d, owed, e).finished
  {
    hide Settle;
    InterruptFrame(RemoveBoard(d), e.gaps.beforeSettle);
    SettleFrame(Interrupt(RemoveBoard(d), e.gaps.beforeSettle), owed, e.settleWrite);
  }

  lemma ConcludeKeepsClips(d: Row, m: Message, owed: OwedWrite, e: PassEnv)
    requires d.finished
    ensures Conclude(d, m, owed, e).row.clips == d.clips && Conclude(d, m, owed, e).row.finished
  {
    hide Finish;
    InterruptFrame(d, e.gaps.beforeMessage);
    FinishKeepsClips(Say(Interrupt(d, e.gaps.beforeMessage), m), owed, e);
  }

  lemma CatchKeepsClips(d: Row, seen: Seen, message: string, e: PassEnv)
    requires d.finished
    ensures CatchBody(d, seen, message, e).clips == d.clips && CatchBody(d, seen, message, e).finished
  {
    hide AttemptFailed, Settle;
    var now := Interrupt(d, e.gaps.beforeCatch);
    InterruptFrame(d, e.gaps.beforeCatch);
    SettleFrame(now, OweFailed, e.settleWrite);
    AttemptFrame(now, seen.attempts, e.catchWrite);
    InterruptFrame(AttemptFailed(now, seen.attempts, e.catchWrite), e.gaps.beforeNotice);
  }

  /** What the try block leaves of the clips of a finished job. */
  lemma TryClips(d: Row, seen: Seen, e: PassEnv)
    requires d.finished && AsSeen(d, seen)
    ensures var r := TryBody(d, seen, e).row;
            && r.finished
            && r.clips == if e.locale.None? && seen.job != JobFailed && seen.clips != [] then Sends(seen.clips, e).clips
                          else d.clips
  {
    hide Conclude, AttemptFailed;
    var sent := d.(clips := Sends(seen.clips, e).clips);
    var m := Summary(InChat(seen.clips, e), |seen.clips|);
    var owed := if InChat(seen.clips, e) < |seen.clips| then OweFailed else OweDelivered;
    AttemptFrame(Interrupt(sent, e.gaps.beforeAttempt), seen.attempts, e.attemptWrite);
    var counted := AttemptFailed(Interrupt(sent, e.gaps.beforeAttempt), seen.attempts, e.attemptWrite);
    InterruptFrame(sent, e.gaps.beforeAttempt);
    ConcludeKeepsClips(d, FailureNotice, OweFailureNotified, e);
    ConcludeKeepsClips(d, NoClips, OweDelivered, e);
    ConcludeKeepsClips(sent, m, owed, e);
    ConcludeKeepsClips(counted, m, owed, e);
  }

  /** The only thing a pass does to the clips of a finished job is the clip loop, which it runs when
      the query saw the job done and with clips, nothing was owed and the locale could be read. */
  predicate RunsClipLoop(d: Row, e: PassEnv) {
    d.owed.None? && e.locale.None? && d.job != JobFailed && d.clips != []
  }

  lemma PassClips(d: Row, e: PassEnv)
    requires d.finished
    ensures RowPass(d, e).finished
    ensures RowPass(d, e).clips == if RunsClipLoop(d, e) then Sends(d.clips, e).clips else d.clips
  {
    hide TryBody, CatchBody, FlushOwed;
    var turn := AtTurn(d, e);
    InterruptFrame(Note(d, Picked), e.gaps.beforeTurn);
    if d.owed.Some? {
      FlushKeepsClips(turn, d.owed.value, e);
    } else {
      TryClips(turn, SeenOf(d), e);
      var a := Tried(d, e);
      if a.threw.Some? {
        CatchKeepsClips(a.row, SeenOf(d), a.threw.value, e);
      }
    }
  }

  lemma FlushKeepsClips(d: Row, owed: OwedWrite, e: PassEnv)
    ensures FlushPass(d, owed, e).clips == d.clips && FlushPass(d, owed, e).finished == d.finished
  {
    hide FlushOwed;
    FlushFrame(d, owed, e.settleWrite);
  }

  /** One pass keeps the clips of a finished job that are recorded or refused for good as they are. */
  lemma PassFreezesSettled(d: Row, e: PassEnv)
    requires ClipsInv(d.clips) && d.finished
    ensures var after := RowPass(d, e);
            after.finished && |after.clips| == |d.clips| && ClipsInv(after.clips) &&
            forall i :: 0 <= i < |d.clips| && !Owed(d.clips[i]) ==> after.clips[i] == d.clips[i]
  {
    hide RowPass;
    PassClips(d, e);
    PassKeepsClips(d.clips, e.clips, e.maxBytes);
  }

  lemma {:induction false} SettledStays(d: Row, more: seq<Step>, i: nat)
    requires ClipsInv(d.clips) && d.finished && i < |d.clips| && !Owed(d.clips[i])
    ensures var after := Run(d, more);
            after.finished && |after.clips| == |d.clips| && ClipsInv(after.clips) && after.clips[i] == d.clips[i]
  {
    hide RowPass;
    if more != [] {
      var front := more[..|more| - 1];
      SettledStays(d, front, i);
      var last := more[|more| - 1];
      if last.Poll? && Pickable(Run(d, front)) {
        PassFreezesSettled(Run(d, front), last.env);
      }
    }
  }

  /** Once a clip is recorded, or refused for good, at any point of a run, no continuation of the run
      uploads it again or touches it in any way. */
  lemma NeverSentAgain(board: bool, steps: seq<Step>, more: seq<Step>, i: nat)
    requires LegalRun(steps)
    ensures var d, after := Run(Created(board), steps), Run(Created(board), steps + more);
            i < |d.clips| && !Owed(d.clips[i]) ==> |after.clips| == |d.clips| && after.clips[i] == d.clips[i]
  {
    var d := Run(Created(board), steps);
    RunTruth(board, steps);
    RunConcat(Created(board), steps, more);
    if i < |d.clips| && !Owed(d.clips[i]) {
      SettledStays(d, more, i);
    }
  }
}
