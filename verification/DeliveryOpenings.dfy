/** The delivery row between two openings: when it speaks. */
module DeliveryOpenings {
  import opened Wrappers
  import opened ClipDelivery
  import opened DeliveryRow
  import opened DeliverySafety

  /******* Owed rows *******/

  lemma {:induction false} InterruptSaysNothing(d: Row, gap: seq<Interruption>)
    ensures TalliesOf(Interrupt(d, gap)).messages == TalliesOf(d).messages
  {
    if gap != [] {
      InterruptSaysNothing(d, gap[..|gap| - 1]);
      LandTallies(Interrupt(d, gap[..|gap| - 1]), gap[|gap| - 1]);
    }
  }

  /** While a status write is owed the row sends nothing and says nothing: a pickup is the write, and
      the row is settled if and only if the write is heard. */
  lemma OwedRowStaysSilent(d: Row, e: PassEnv)
    requires d.owed.Some?
    ensures var after := RowPass(d, e);
            && after.clips == AtTurn(d, e).clips
            && TalliesOf(after).messages == TalliesOf(d).messages
            && (after.owed.None? <==> e.settleWrite.Stored?)
            && (e.settleWrite.Stored? ==> after.status == StatusOf(d.owed.value))
  {
    hide FlushOwed;
    TalliesNote(d, Picked);
    InterruptSaysNothing(Note(d, Picked), e.gaps.beforeTurn);
    InterruptFrame(Note(d, Picked), e.gaps.beforeTurn);
    FlushTallies(AtTurn(d, e), d.owed.value, e.settleWrite);
  }

  /******* One message between two openings *******/

  /** Was an outcome message confirmed since the row last opened? */
  predicate SpokenSinceOpened(log: seq<Event>) {
    if log == [] then false
    else match log[|log| - 1]
      case Opened(_, _) => false
      case Said(_) => true
      case _ => SpokenSinceOpened(log[..|log| - 1])
  }

  /** Between any two outcome messages the row opened. */
  predicate Alternates(log: seq<Event>) {
    forall i :: 0 <= i < |log| && log[i].Said? ==> !SpokenSinceOpened(log[..i])
  }

  predicate Strict(d: Row) {
    Alternates(d.log) && (MaySpeak(d) ==> !SpokenSinceOpened(d.log))
  }

  /** Inside a pass before its message. */
  predicate Hush(d: Row) {
    d.owed.None? && Alternates(d.log) && !SpokenSinceOpened(d.log)
  }

  lemma NoteAlternates(log: seq<Event>, e: Event)
    requires Alternates(log)
    requires e.Said? ==> !SpokenSinceOpened(log)
    ensures Alternates(log + [e])
    ensures SpokenSinceOpened(log + [e]) == match e
                                            case Opened(_, _) => false
                                            case Said(_) => true
                                            case _ => SpokenSinceOpened(log)
  {
    var next := log + [e];
    assert next[..|log|] == log;
    forall i | 0 <= i < |next| && next[i].Said?
      ensures !SpokenSinceOpened(next[..i])
    {
      assert i < |log| ==> next[..i] == log[..i];
    }
  }

  lemma StatusWriteAlternates(d: Row, status: Status, attempts: nat, e: Event, w: Write)
    requires Alternates(d.log) && (e.Counted? || e.Wrote?)
    ensures var r := StatusWrite(d, status, attempts, e, w);
            && Alternates(r.log)
            && (SpokenSinceOpened(r.log) ==> SpokenSinceOpened(d.log))
            && (SpokenSinceOpened(r.log) && w.Applied() && Healed(r) ==> Healed(d))
  {
    hide Alternates;
    var written := Note(d.(status := status, attempts := attempts), e);
    NoteAlternates(d.log, e);
    NoteAlternates(written.log, Opened(ByHeal, false));
    NoteAlternates((if w.Applied() then NoteHeal(d, written, false) else d).log, StatusWriteFailed);
  }

  lemma FlushAlternates(d: Row, owed: OwedWrite, w: Write)
    requires Alternates(d.log)
    ensures var r := FlushOwed(d, owed, w);
            && Alternates(r.log)
            && (SpokenSinceOpened(r.log) ==> SpokenSinceOpened(d.log))
            && (SpokenSinceOpened(r.log) && w.Applied() && Healed(r) ==> Healed(d))
  {
    hide StatusWrite;
    match owed {
      case OweDelivered => StatusWriteAlternates(d, DELIVERED, 0, Wrote(DELIVERED), w);
      case OweFailureNotified => StatusWriteAlternates(d, FAILURE_NOTIFIED, 0, Wrote(FAILURE_NOTIFIED), w);
      case OweFailed => StatusWriteAlternates(d, FAILED, d.attempts, Wrote(FAILED), w);
    }
  }

  lemma AttemptAlternates(d: Row, a: nat, w: Write)
    requires Alternates(d.log)
    ensures var r := AttemptFailed(d, a, w);
            Alternates(r.log) && (SpokenSinceOpened(r.log) ==> SpokenSinceOpened(d.log))
  {
    hide StatusWrite;
    StatusWriteAlternates(d, if Terminal(a) then FAILED else d.status, d.attempts + 1, Counted, w);
  }

  lemma SettleStrict(d: Row, owed: OwedWrite, w: Write)
    requires Alternates(d.log) && d.owed.None?
    requires owed == OweFailureNotified ==> d.status != FAILURE_NOTIFIED
    ensures Strict(Settle(d, owed, w))
  {
    hide FlushOwed;
    FlushAlternates(d.(owed := Some(owed)), owed, w);
    FlushFrame(d.(owed := Some(owed)), owed, w);
  }

  lemma LandHush(d: Row, i: Interruption)
    requires Alternates(d.log)
    ensures Alternates(Land(d, i).log)
    ensures SpokenSinceOpened(Land(d, i).log) ==> SpokenSinceOpened(d.log)
    ensures Strict(d) ==> Strict(Land(d, i))
  {
    NoteAlternates(d.log, Opened(ByPress, d.owed.Some?));
    NoteAlternates(d.log, Opened(ByHeal, d.owed.Some?));
  }

  lemma {:induction false} InterruptHush(d: Row, gap: seq<Interruption>)
    requires Alternates(d.log)
    ensures Alternates(Interrupt(d, gap).log)
    ensures SpokenSinceOpened(Interrupt(d, gap).log) ==> SpokenSinceOpened(d.log)
    ensures Strict(d) ==> Strict(Interrupt(d, gap))
  {
    if gap != [] {
      InterruptHush(d, gap[..|gap| - 1]);
      LandHush(Interrupt(d, gap[..|gap| - 1]), gap[|gap| - 1]);
    }
  }

  lemma FinishStrict(d: Row, owed: OwedWrite, e: PassEnv)
    requires Alternates(d.log) && d.owed.None?
    requires owed == OweFailureNotified ==> d.status != FAILURE_NOTIFIED
    ensures Strict(Finish(d, owed, e))
  {
    hide Settle, Strict;
    var bare := RemoveBoard(d);
    NoteAlternates(d.log, BoardRemoval);
    InterruptHush(bare, e.gaps.beforeSettle);
    InterruptFrame(bare, e.gaps.beforeSettle);
    SettleStrict(Interrupt(bare, e.gaps.beforeSettle), owed, e.settleWrite);
  }

  lemma ConcludeStrict(d: Row, m: Message, owed: OwedWrite, e: PassEnv)
    requires Hush(d)
    requires owed == OweFailureNotified ==> d.status != FAILURE_NOTIFIED
    ensures var r := Conclude(d, m, owed, e);
            if r.threw.Some? then Hush(r.row) else Strict(r.row)
  {
    hide Finish, Strict;
    var now := Interrupt(d, e.gaps.beforeMessage);
    InterruptHush(d, e.gaps.beforeMessage);
    InterruptFrame(d, e.gaps.beforeMessage);
    if e.summary.Confirmed? {
      NoteAlternates(now.log, Said(m));
      FinishStrict(Say(now, m), owed, e);
    }
  }

  lemma HushStrict(d: Row)
    requires Hush(d)
    ensures Strict(d)
  {
  }

  lemma SendClipsStrict(d: Row, seen: Seen, e: PassEnv)
    requires Hush(d)
    ensures var r := SendClips(d, seen, e);
            if r.threw.Some? then Hush(r.row) else Strict(r.row)
  {
    hide Conclude, AttemptFailed, Strict;
    var sent := d.(clips := Sends(seen.clips, e).clips);
    var now := Interrupt(sent, e.gaps.beforeAttempt);
    var counted := AttemptFailed(now, seen.attempts, e.attemptWrite);
    var m := Summary(InChat(seen.clips, e), |seen.clips|);
    var owed := if InChat(seen.clips, e) < |seen.clips| then OweFailed else OweDelivered;
    InterruptHush(sent, e.gaps.beforeAttempt);
    InterruptFrame(sent, e.gaps.beforeAttempt);
    AttemptAlternates(now, seen.attempts, e.attemptWrite);
    AttemptFrame(now, seen.attempts, e.attemptWrite);
    HushStrict(counted);
    ConcludeStrict(sent, m, owed, e);
    ConcludeStrict(counted, m, owed, e);
  }

  lemma TryStrict(d: Row, seen: Seen, e: PassEnv)
    requires Hush(d) && (seen.job == JobFailed ==> d.status != FAILURE_NOTIFIED)
    ensures var r := TryBody(d, seen, e);
            if r.threw.Some? then Hush(r.row) else Strict(r.row)
  {
    hide Conclude, SendClips, Strict;
    if e.locale.None? {
      if seen.job == JobFailed {
        ConcludeStrict(d, FailureNotice, OweFailureNotified, e);
      } else if seen.clips == [] {
        ConcludeStrict(d, NoClips, OweDelivered, e);
      } else {
        SendClipsStrict(d, seen, e);
      }
    }
  }

  /** The catch block reaches its given-up notice, Telegram confirms it, and a resend press landed
      between the write that retired the row and the notice. */
  predicate LateNotice(d: Row, e: PassEnv) {
    var a := Tried(d, e);
    && d.owed.None? && a.threw.Some? && !IsPermanentTelegramError(a.threw.value)
    && e.catchWrite.Stored? && Terminal(d.attempts)
    && Pressed in e.gaps.beforeNotice && e.notice.Confirmed?
  }

  lemma NoticeStrict(d: Row, total: nat, e: PassEnv)
    requires Hush(d) && d.status == FAILED
    ensures Strict(GiveNotice(d, total, e)) <==> !(Pressed in e.gaps.beforeNotice && e.notice.Confirmed?)
  {
    var now := Interrupt(d, e.gaps.beforeNotice);
    InterruptHush(d, e.gaps.beforeNotice);
    InterruptFrame(d, e.gaps.beforeNotice);
    NoteAlternates(now.log, Said(GivenUp(total)));
    assert MaySpeak(now) <==> Pressed in e.gaps.beforeNotice;
  }

  lemma CatchStrict(d: Row, seen: Seen, message: string, e: PassEnv)
    requires Hush(d)
    ensures Strict(CatchBody(d, seen, message, e)) <==>
            !(&& !IsPermanentTelegramError(message) && e.catchWrite.Stored? && Terminal(seen.attempts)
              && Pressed in e.gaps.beforeNotice && e.notice.Confirmed?)
  {
    hide AttemptFailed, Settle, GiveNotice, Strict;
    var now := Interrupt(d, e.gaps.beforeCatch);
    InterruptHush(d, e.gaps.beforeCatch);
    InterruptFrame(d, e.gaps.beforeCatch);
    if IsPermanentTelegramError(message) {
      SettleStrict(now, OweFailed, e.settleWrite);
    } else {
      var counted := AttemptFailed(now, seen.attempts, e.catchWrite);
      AttemptAlternates(now, seen.attempts, e.catchWrite);
      AttemptFrame(now, seen.attempts, e.catchWrite);
      HushStrict(counted);
      if e.catchWrite.Stored? && Terminal(seen.attempts) {
        NoticeStrict(counted, |seen.clips|, e);
      }
    }
  }

  lemma FlushPassStrict(d: Row, owed: OwedWrite, e: PassEnv)
    requires Strict(d) && d.owed == Some(owed)
    ensures Strict(FlushPass(d, owed, e))
  {
    hide FlushOwed;
    FlushAlternates(d, owed, e.settleWrite);
    FlushFrame(d, owed, e.settleWrite);
  }

  /** A pass leaves "one message per opening" intact exactly when no press lands in the gap between
      the write that retires the row and the notice that follows it. Every other gap is safe. */
  lemma PassIsStrictUnlessLateNotice(d: Row, e: PassEnv)
    requires Strict(d) && Pickable(d)
    ensures Strict(RowPass(d, e)) <==> !LateNotice(d, e)
  {
    hide TryBody, CatchBody, FlushPass;
    var picked, turn := Note(d, Picked), AtTurn(d, e);
    NoteAlternates(d.log, Picked);
    InterruptHush(picked, e.gaps.beforeTurn);
    InterruptFrame(picked, e.gaps.beforeTurn);
    if d.owed.Some? {
      FlushPassStrict(turn, d.owed.value, e);
    } else {
      TryStrict(turn, SeenOf(d), e);
      var a := Tried(d, e);
      if a.threw.Some? {
        CatchStrict(a.row, SeenOf(d), a.threw.value, e);
      }
    }
  }

  /** The step is a poll of the row that meets a late notice. */
  predicate LateStep(d: Row, s: Step) {
    s.Poll? && Pickable(d) && LateNotice(d, s.env)
  }

  lemma StepStrict(d: Row, s: Step)
    requires Strict(d)
    ensures Strict(Next(d, s)) <==> !LateStep(d, s)
  {
    hide RowPass, Strict;
    match s {
      case Poll(env) => if Pickable(d) { PassIsStrictUnlessLateNotice(d, env); }
      case ResendPress(ownRow, w) => StrictLands(d, Pressed);
      case JobMoves(job, clips) => StrictLands(d, Moved(job, clips));
    }
  }

  lemma StrictLands(d: Row, i: Interruption)
    requires Strict(d)
    ensures Strict(Land(d, i))
  {
    LandHush(d, i);
  }

  predicate StrictThroughout(board: bool, steps: seq<Step>) {
    forall n :: 0 <= n <= |steps| ==> Strict(Run(Created(board), steps[..n]))
  }

  predicate NeverLate(board: bool, steps: seq<Step>) {
    forall n :: 0 <= n < |steps| ==> !LateStep(Run(Created(board), steps[..n]), steps[n])
  }

  lemma StrictPrefix(board: bool, front: seq<Step>, s: Step)
    ensures StrictThroughout(board, front + [s]) <==>
            StrictThroughout(board, front) && Strict(Run(Created(board), front + [s]))
    ensures StrictThroughout(board, front) ==> Strict(Run(Created(board), front))
  {
    hide Strict, Run;
    var steps := front + [s];
    assert forall n :: 0 <= n <= |front| ==> front[..n] == steps[..n];
    assert front[..|front|] == front && steps[..|steps|] == steps;
  }

  lemma NeverLatePrefix(board: bool, front: seq<Step>, s: Step)
    ensures NeverLate(board, front + [s]) <==> NeverLate(board, front) && !LateStep(Run(Created(board), front), s)
  {
    hide LateStep, Run;
    var steps := front + [s];
    assert forall n :: 0 <= n <= |front| ==> front[..n] == steps[..n];
    assert front[..|front|] == front;
  }

  /** A run keeps "an opening between any two outcome messages" at each of its steps if and only if none
      of its polls meets a late notice. */
  lemma {:induction false} RunAlternatesIff(board: bool, steps: seq<Step>)
    ensures StrictThroughout(board, steps) <==> NeverLate(board, steps)
  {
    if steps == [] {
      CreatedIsStrict(board);
    } else {
      hide StrictThroughout, NeverLate, Strict, Next, LateStep, Run;
      var front, last := steps[..|steps| - 1], steps[|steps| - 1];
      assert front + [last] == steps;
      RunAlternatesIff(board, front);
      StrictPrefix(board, front, last);
      NeverLatePrefix(board, front, last);
      RunOne(Created(board), front, last);
      if Strict(Run(Created(board), front)) {
        StepStrict(Run(Created(board), front), last);
      }
    }
  }

  lemma CreatedIsStrict(board: bool)
    ensures Strict(Run(Created(board), []))
  {
    assert Created(board).log[..0] == [];
  }

  /** And then any two outcome messages of the run have an opening between them. */
  lemma RunAlternates(board: bool, steps: seq<Step>)
    requires NeverLate(board, steps)
    ensures Alternates(Run(Created(board), steps).log)
  {
    hide Next, LateStep;
    RunAlternatesIff(board, steps);
    assert steps[..|steps|] == steps;
  }
}
