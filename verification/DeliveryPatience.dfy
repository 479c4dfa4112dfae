/** The attempt budget from below: what the stored count is, and how long a delivery row is given
    before a fault retires it. */
module DeliveryPatience {
  import opened Wrappers
  import opened ClipDelivery
  import opened DeliveryRow
  import opened DeliveryTruth

  /** Does the event set the attempt count back to nothing? A heal does not. */
  predicate Renews(e: Event) {
    match e
    case Opened(how, _) => how != ByHeal
    case Wrote(status) => status != FAILED
    case _ => false
  }

  /** Since the budget was last renewed: attempts that reached the table, and what was spent on them
      (pickups and failed status writes). */
  datatype Ledger = Ledger(counted: nat, spent: nat)

  function Enter(l: Ledger, e: Event): Ledger {
    if Renews(e) then Ledger(0, 0)
    else match e
      case Counted => l.(counted := l.counted + 1)
      case Picked => l.(spent := l.spent + 1)
      case StatusWriteFailed => l.(spent := l.spent + 1)
      case _ => l
  }

  function Book(log: seq<Event>): Ledger {
    if log == [] then Ledger(0, 0) else Enter(Book(log[..|log| - 1]), log[|log| - 1])
  }

  lemma BookNote(d: Row, e: Event)
    ensures Book(Note(d, e).log) == Enter(Book(d.log), e)
  {
    assert (d.log + [e])[..|d.log|] == d.log;
  }

  /** The stored count is the history's; and a row whose user was told of the failure of a job that
      was never done has its whole budget ahead of it. */
  predicate Exact(d: Row) {
    && d.attempts == Book(d.log).counted
    && (d.job == JobDone ==> d.finished)
    && (d.status == FAILURE_NOTIFIED && !d.finished ==> d.attempts == 0)
  }

  /** Until the row is retired, its count is at most what was spent, up to a slack of one for a press
      that landed inside a pass, which is charged for it without a pickup of its own. */
  predicate Patient(d: Row, slack: nat) {
    Exact(d) && (d.status == FAILED || d.attempts <= Book(d.log).spent + slack)
  }

  /** Inside a pass that has not counted its pickup yet. */
  predicate Uncounted(d: Row, slack: nat) {
    && Exact(d) && (d.status == FAILED || d.attempts < Book(d.log).spent + slack)
    && (d.status == FAILURE_NOTIFIED ==> d.finished)
  }

  lemma StatusWriteBook(d: Row, status: Status, attempts: nat, e: Event, w: Write)
    requires e.Counted? || e.Wrote?
    ensures var l := if w.Applied() then Enter(Book(d.log), e) else Book(d.log);
            Book(StatusWrite(d, status, attempts, e, w).log) == if w.Threw? then l.(spent := l.spent + 1) else l
  {
    hide Book;
    var written := d.(status := status, attempts := attempts);
    BookNote(written, e);
    BookNote(Note(written, e), Opened(ByHeal, false));
    BookNote(if w.Applied() then NoteHeal(d, Note(written, e), false) else d, StatusWriteFailed);
  }

  lemma FlushPatient(d: Row, owed: OwedWrite, w: Write, slack: nat)
    requires Patient(d, slack)
    ensures Patient(FlushOwed(d, owed, w), slack)
  {
    hide StatusWrite;
    FlushFrame(d, owed, w);
    match owed {
      case OweDelivered => StatusWriteBook(d, DELIVERED, 0, Wrote(DELIVERED), w);
      case OweFailureNotified => StatusWriteBook(d, FAILURE_NOTIFIED, 0, Wrote(FAILURE_NOTIFIED), w);
      case OweFailed => StatusWriteBook(d, FAILED, d.attempts, Wrote(FAILED), w);
    }
  }

  lemma SettlePatient(d: Row, owed: OwedWrite, w: Write, slack: nat)
    requires Patient(d, slack)
    ensures Patient(Settle(d, owed, w), slack)
  {
    hide FlushOwed;
    FlushPatient(d.(owed := Some(owed)), owed, w, slack);
  }

  /** One counting write: it spends the pickup, and when it throws it leaves one to spend. */
  lemma AttemptPatient(d: Row, a: nat, w: Write, slack: nat)
    requires Uncounted(d, slack)
    ensures Patient(AttemptFailed(d, a, w), slack)
    ensures w.Threw? || Terminal(a) ==> Uncounted(AttemptFailed(d, a, w), slack)
  {
    hide StatusWrite;
    AttemptFrame(d, a, w);
    StatusWriteBook(d, if Terminal(a) then FAILED else d.status, d.attempts + 1, Counted, w);
  }

  lemma LandBook(d: Row, i: Interruption)
    ensures Book(Land(d, i).log) == if i.Pressed? then Ledger(0, 0) else Book(d.log)
  {
    hide Book;
    match i {
      case Pressed => BookNote(d.(status := PENDING, attempts := 0), Opened(ByPress, d.owed.Some?));
      case Moved(job, clips) =>
        var moved := WithJob(d, job, clips);
        BookNote(moved, Opened(ByHeal, d.owed.Some?));
    }
  }

  lemma LandPatient(d: Row, i: Interruption, slack: nat)
    ensures Patient(d, slack) ==> Patient(Land(d, i), slack)
    ensures Uncounted(d, slack) && (i.Pressed? ==> slack > 0) ==> Uncounted(Land(d, i), slack)
  {
    hide Book;
    LandBook(d, i);
  }

  lemma {:induction false} InterruptPatient(d: Row, gap: seq<Interruption>, slack: nat)
    ensures Patient(d, slack) ==> Patient(Interrupt(d, gap), slack)
    ensures Uncounted(d, slack) && (Pressed in gap ==> slack > 0) ==> Uncounted(Interrupt(d, gap), slack)
  {
    hide Land, Patient, Uncounted;
    if gap != [] {
      InterruptPatient(d, gap[..|gap| - 1], slack);
      LandPatient(Interrupt(d, gap[..|gap| - 1]), gap[|gap| - 1], slack);
    }
  }

  predicate NoPresses(g: Gaps) {
    && Pressed !in g.beforeTurn && Pressed !in g.beforeAttempt && Pressed !in g.beforeMessage
    && Pressed !in g.beforeSettle && Pressed !in g.beforeCatch && Pressed !in g.beforeNotice
  }

  /** A slack of nothing needs a pass without presses in it. */
  predicate SlackFor(e: PassEnv, slack: nat) {
    slack > 0 || NoPresses(e.gaps)
  }

  lemma QuietNote(d: Row, e: Event, slack: nat)
    requires e.Said? || e == BoardRemoval
    ensures Patient(d, slack) ==> Patient(Note(d, e), slack)
  {
    hide Book;
    BookNote(d, e);
  }

  lemma FinishPatient(d: Row, owed: OwedWrite, e: PassEnv, slack: nat)
    requires Patient(d, slack)
    ensures Patient(Finish(d, owed, e), slack)
  {
    hide Settle, Patient, Book;
    QuietNote(d, BoardRemoval, slack);
    InterruptPatient(RemoveBoard(d), e.gaps.beforeSettle, slack);
    SettlePatient(Interrupt(RemoveBoard(d), e.gaps.beforeSettle), owed, e.settleWrite, slack);
  }

  lemma ConcludePatient(d: Row, m: Message, owed: OwedWrite, e: PassEnv, slack: nat)
    requires SlackFor(e, slack)
    ensures var r := Conclude(d, m, owed, e);
            && (Patient(d, slack) && r.threw.None? ==> Patient(r.row, slack))
            && (Uncounted(d, slack) && r.threw.Some? ==> Uncounted(r.row, slack))
  {
    hide Finish, Patient, Uncounted, Book;
    var now := Interrupt(d, e.gaps.beforeMessage);
    InterruptPatient(d, e.gaps.beforeMessage, slack);
    QuietNote(now, Said(m), slack);
    if Patient(now, slack) {
      FinishPatient(Say(now, m), owed, e, slack);
    }
  }

  lemma UncountedIsPatient(d: Row, slack: nat)
    requires Uncounted(d, slack)
    ensures Patient(d, slack)
  {
  }

  lemma SendClipsPatient(d: Row, seen: Seen, e: PassEnv, slack: nat)
    requires Uncounted(d, slack) && SlackFor(e, slack)
    ensures var r := SendClips(d, seen, e);
            if r.threw.Some? then Uncounted(r.row, slack) else Patient(r.row, slack)
  {
    hide Conclude, AttemptFailed;
    var sent := d.(clips := Sends(seen.clips, e).clips);
    var now := Interrupt(sent, e.gaps.beforeAttempt);
    var counted := AttemptFailed(now, seen.attempts, e.attemptWrite);
    InterruptPatient(sent, e.gaps.beforeAttempt, slack);
    AttemptPatient(now, seen.attempts, e.attemptWrite, slack);
    hide Patient, Uncounted;
    UncountedIsPatient(sent, slack);
    var m := Summary(InChat(seen.clips, e), |seen.clips|);
    var owed := if InChat(seen.clips, e) < |seen.clips| then OweFailed else OweDelivered;
    ConcludePatient(sent, m, owed, e, slack);
    ConcludePatient(counted, m, owed, e, slack);
  }

  lemma TryPatient(d: Row, seen: Seen, e: PassEnv, slack: nat)
    requires Uncounted(d, slack) && SlackFor(e, slack)
    ensures var r := TryBody(d, seen, e);
            if r.threw.Some? then Uncounted(r.row, slack) else Patient(r.row, slack)
  {
    hide Conclude, SendClips, Patient, Uncounted;
    if e.locale.None? {
      UncountedIsPatient(d, slack);
      ConcludePatient(d, FailureNotice, OweFailureNotified, e, slack);
      ConcludePatient(d, NoClips, OweDelivered, e, slack);
      SendClipsPatient(d, seen, e, slack);
    }
  }

  lemma CatchPatient(d: Row, seen: Seen, message: string, e: PassEnv, slack: nat)
    requires Uncounted(d, slack) && SlackFor(e, slack)
    ensures Patient(CatchBody(d, seen, message, e), slack)
  {
    hide Settle, AttemptFailed;
    var now := Interrupt(d, e.gaps.beforeCatch);
    InterruptPatient(d, e.gaps.beforeCatch, slack);
    if IsPermanentTelegramError(message) {
      SettlePatient(now, OweFailed, e.settleWrite, slack);
    } else {
      var counted := AttemptFailed(now, seen.attempts, e.catchWrite);
      AttemptPatient(now, seen.attempts, e.catchWrite, slack);
      InterruptPatient(counted, e.gaps.beforeNotice, slack);
      BookNote(Interrupt(counted, e.gaps.beforeNotice), Said(GivenUp(|seen.clips|)));
    }
  }

  lemma PassPatient(d: Row, e: PassEnv, slack: nat)
    requires Patient(d, slack) && Pickable(d) && SlackFor(e, slack)
    ensures Patient(RowPass(d, e), slack)
  {
    hide TryBody, CatchBody, FlushOwed;
    var picked, turn := Note(d, Picked), AtTurn(d, e);
    BookNote(d, Picked);
    InterruptPatient(picked, e.gaps.beforeTurn, slack);
    if d.owed.Some? {
      FlushPatient(turn, d.owed.value, e.settleWrite, slack);
    } else {
      TryPatient(turn, SeenOf(d), e, slack);
      var a := Tried(d, e);
      if a.threw.Some? {
        CatchPatient(a.row, SeenOf(d), a.threw.value, e, slack);
      }
    }
  }

  lemma StepPatient(d: Row, s: Step, slack: nat)
    requires Patient(d, slack)
    requires s.Poll? ==> SlackFor(s.env, slack)
    ensures Patient(Next(d, s), slack)
  {
    hide RowPass, Patient;
    match s {
      case Poll(env) => if Pickable(d) { PassPatient(d, env, slack); }
      case ResendPress(ownRow, w) => LandPatient(d, Pressed, slack);
      case JobMoves(job, clips) => LandPatient(d, Moved(job, clips), slack);
    }
  }

  /** Over every run: the stored count is exactly the attempts that reached the table since the budget
      was last renewed (creation, press, failure notice or delivery written), and until the row is
      retired that is at most the pickups and failed status writes since then, plus one only if a
      press landed inside a poll. */
  lemma {:induction false} RunIsPatient(board: bool, steps: seq<Step>, slack: nat)
    requires forall i :: 0 <= i < |steps| && steps[i].Poll? ==> SlackFor(steps[i].env, slack)
    ensures Patient(Run(Created(board), steps), slack)
  {
    if steps == [] {
      assert Created(board).log[..0] == [];
    } else {
      RunIsPatient(board, steps[..|steps| - 1], slack);
      StepPatient(Run(Created(board), steps[..|steps| - 1]), steps[|steps| - 1], slack);
    }
  }

  /** A heal opens the row with its whole budget if and only if no attempt was counted since the failure
      notice was written. The first time the job is done that is always so; after that it takes a job
      that was done, met a failing poll, failed again and was done again. */
  lemma HealBringsWholeBudgetIff(board: bool, steps: seq<Step>, clips: seq<Clip>)
    ensures var d := Run(Created(board), steps);
            var healed := MoveJob(d, JobDone, clips);
            d.status == FAILURE_NOTIFIED && d.job != JobDone ==>
              && Healed(healed) && healed.log == d.log + [Opened(ByHeal, d.owed.Some?)]
              && (healed.attempts == 0 <==> Book(d.log).counted == 0)
              && (!d.finished ==> healed.attempts == 0)
  {
    forall i | 0 <= i < |steps| && steps[i].Poll?
      ensures SlackFor(steps[i].env, 1)
    {
    }
    RunIsPatient(board, steps, 1);
  }

  /******* Who may retire a row *******/

  /** Telegram said the chat is unreachable for good. */
  predicate Unreachable(d: Row, e: PassEnv) {
    Tried(d, e).threw.Some? && IsPermanentTelegramError(Tried(d, e).threw.value)
  }

  /** The summary was confirmed, nothing is owed, and some clip was refused for good. */
  predicate RefusedForGood(clips: seq<Clip>, e: PassEnv) {
    var p := Sends(clips, e);
    e.summary.Confirmed? && p.escaped.None? && p.pending == 0 && p.unsendable > 0
  }

  /** Anything else that fails is given twelve pickups, fewer only by failed status writes, since the
      budget was last renewed (eleven if a press landed inside a poll): a pass before that leaves the
      row open. */
  lemma NoFaultRetiresEarly(board: bool, steps: seq<Step>, e: PassEnv, slack: nat)
    requires forall i :: 0 <= i < |steps| && steps[i].Poll? ==> SlackFor(steps[i].env, slack)
    ensures var d := Run(Created(board), steps);
            Pickable(d) && d.owed.None? && RowPass(d, e).status == FAILED ==>
              Unreachable(d, e) || RefusedForGood(d.clips, e) || Book(d.log).spent + 1 + slack >= MAX_ATTEMPTS
  {
    RunIsPatient(board, steps, slack);
    var d := Run(Created(board), steps);
    if Pickable(d) && d.owed.None? && !Terminal(d.attempts) {
      RetiredByTwoCauses(d, e);
    }
  }

  lemma RetiredByTwoCauses(d: Row, e: PassEnv)
    requires Pickable(d) && d.owed.None? && !Terminal(d.attempts)
    ensures RowPass(d, e).status == FAILED ==> Unreachable(d, e) || RefusedForGood(d.clips, e)
  {
    hide TryBody, AttemptFailed;
    InterruptFrame(Note(d, Picked), e.gaps.beforeTurn);
    TryRetires(AtTurn(d, e), SeenOf(d), e);
    var a := Tried(d, e);
    var now := Interrupt(a.row, e.gaps.beforeCatch);
    InterruptFrame(a.row, e.gaps.beforeCatch);
    AttemptFrame(now, d.attempts, e.catchWrite);
  }

  lemma ConcludeRetires(d: Row, m: Message, owed: OwedWrite, e: PassEnv)
    requires d.status != FAILED
    ensures var r := Conclude(d, m, owed, e);
            r.row.status == FAILED ==> r.threw.None? && owed == OweFailed && e.summary.Confirmed?
  {
    hide Settle;
    var now := Interrupt(d, e.gaps.beforeMessage);
    InterruptFrame(d, e.gaps.beforeMessage);
    InterruptFrame(RemoveBoard(Say(now, m)), e.gaps.beforeSettle);
    SettleFrame(Interrupt(RemoveBoard(Say(now, m)), e.gaps.beforeSettle), owed, e.settleWrite);
  }

  lemma SendClipsRetires(d: Row, seen: Seen, e: PassEnv)
    requires d.status != FAILED && !Terminal(seen.attempts)
    ensures var r := SendClips(d, seen, e);
            r.row.status == FAILED ==> r.threw.None? && RefusedForGood(seen.clips, e)
  {
    hide Conclude, AttemptFailed, Interrupt, Sends;
    var p := Sends(seen.clips, e);
    var sent := d.(clips := p.clips);
    var owed := if InChat(seen.clips, e) < |seen.clips| then OweFailed else OweDelivered;
    ConcludeRetires(sent, Summary(InChat(seen.clips, e), |seen.clips|), owed, e);
    InterruptFrame(sent, e.gaps.beforeAttempt);
    AttemptFrame(Interrupt(sent, e.gaps.beforeAttempt), seen.attempts, e.attemptWrite);
    if p.escaped.None? {
      SummaryIsExact(seen.clips, e);
    }
  }

  lemma TryRetires(d: Row, seen: Seen, e: PassEnv)
    requires d.status != FAILED && !Terminal(seen.attempts)
    ensures var r := TryBody(d, seen, e);
            r.row.status == FAILED ==> r.threw.None? && RefusedForGood(seen.clips, e)
  {
    hide Conclude, SendClips;
    ConcludeRetires(d, FailureNotice, OweFailureNotified, e);
    ConcludeRetires(d, NoClips, OweDelivered, e);
    SendClipsRetires(d, seen, e);
  }

  /******* One pickup, two attempts *******/

  function Counts(log: seq<Event>): nat {
    if log == [] then 0 else Counts(log[..|log| - 1]) + if log[|log| - 1].Counted? then 1 else 0
  }

  lemma CountsNote(d: Row, e: Event)
    ensures Counts(Note(d, e).log) == Counts(d.log) + if e.Counted? then 1 else 0
  {
    assert (d.log + [e])[..|d.log|] == d.log;
  }

  lemma StatusWriteCounts(d: Row, status: Status, attempts: nat, e: Event, w: Write)
    requires e.Counted? || e.Wrote?
    ensures Counts(StatusWrite(d, status, attempts, e, w).log)
            == Counts(d.log) + if w.Applied() && e.Counted? then 1 else 0
  {
    hide Counts;
    var written := d.(status := status, attempts := attempts);
    CountsNote(written, e);
    CountsNote(Note(written, e), Opened(ByHeal, false));
    CountsNote(if w.Applied() then NoteHeal(d, Note(written, e), false) else d, StatusWriteFailed);
  }

  lemma SettleCounts(d: Row, owed: OwedWrite, w: Write)
    ensures Counts(Settle(d, owed, w).log) == Counts(d.log)
    ensures Counts(FlushOwed(d, owed, w).log) == Counts(d.log)
  {
    hide StatusWrite;
    var o := d.(owed := Some(owed));
    StatusWriteCounts(o, DELIVERED, 0, Wrote(DELIVERED), w);
    StatusWriteCounts(o, FAILURE_NOTIFIED, 0, Wrote(FAILURE_NOTIFIED), w);
    StatusWriteCounts(o, FAILED, d.attempts, Wrote(FAILED), w);
    StatusWriteCounts(d, DELIVERED, 0, Wrote(DELIVERED), w);
    StatusWriteCounts(d, FAILURE_NOTIFIED, 0, Wrote(FAILURE_NOTIFIED), w);
    StatusWriteCounts(d, FAILED, d.attempts, Wrote(FAILED), w);
  }

  lemma AttemptCounts(d: Row, a: nat, w: Write)
    ensures Counts(AttemptFailed(d, a, w).log) == Counts(d.log) + if w.Applied() then 1 else 0
  {
    hide StatusWrite;
    StatusWriteCounts(d, if Terminal(a) then FAILED else d.status, d.attempts + 1, Counted, w);
  }

  lemma LandCounts(d: Row, i: Interruption)
    ensures Counts(Land(d, i).log) == Counts(d.log)
  {
    match i {
      case Pressed => CountsNote(d.(status := PENDING, attempts := 0), Opened(ByPress, d.owed.Some?));
      case Moved(job, clips) =>
        var moved := WithJob(d, job, clips);
        CountsNote(moved, Opened(ByHeal, d.owed.Some?));
    }
  }

  lemma {:induction false} InterruptCounts(d: Row, gap: seq<Interruption>)
    ensures Counts(Interrupt(d, gap).log) == Counts(d.log)
  {
    hide Land;
    if gap != [] {
      InterruptCounts(d, gap[..|gap| - 1]);
      LandCounts(Interrupt(d, gap[..|gap| - 1]), gap[|gap| - 1]);
    }
  }

  lemma ConcludeCounts(d: Row, m: Message, owed: OwedWrite, e: PassEnv)
    ensures Counts(Conclude(d, m, owed, e).row.log) == Counts(d.log)
  {
    hide Settle;
    var now := Interrupt(d, e.gaps.beforeMessage);
    var bare := RemoveBoard(Say(now, m));
    InterruptCounts(d, e.gaps.beforeMessage);
    CountsNote(now, Said(m));
    CountsNote(Say(now, m), BoardRemoval);
    InterruptCounts(bare, e.gaps.beforeSettle);
    SettleCounts(Interrupt(bare, e.gaps.beforeSettle), owed, e.settleWrite);
  }

  /** The poll sends clips and leaves some owed, so it has an attempt to count. */
  predicate CountDue(d: Row, e: PassEnv) {
    RunsClipLoop(d, e) && Sends(d.clips, e).escaped.None? && Sends(d.clips, e).pending > 0
  }

  lemma SendClipsCounts(d: Row, seen: Seen, e: PassEnv)
    ensures var p := Sends(seen.clips, e);
            Counts(SendClips(d, seen, e).row.log)
            == Counts(d.log) + if p.escaped.None? && p.pending > 0 && e.attemptWrite.Applied() then 1 else 0
  {
    hide Conclude, AttemptFailed;
    var sent := d.(clips := Sends(seen.clips, e).clips);
    var now := Interrupt(sent, e.gaps.beforeAttempt);
    var m := Summary(InChat(seen.clips, e), |seen.clips|);
    var owed := if InChat(seen.clips, e) < |seen.clips| then OweFailed else OweDelivered;
    InterruptCounts(sent, e.gaps.beforeAttempt);
    AttemptCounts(now, seen.attempts, e.attemptWrite);
    ConcludeCounts(sent, m, owed, e);
    ConcludeCounts(AttemptFailed(now, seen.attempts, e.attemptWrite), m, owed, e);
  }

  lemma CatchCounts(d: Row, seen: Seen, message: string, e: PassEnv)
    ensures Counts(CatchBody(d, seen, message, e).log)
            == Counts(d.log) + if !IsPermanentTelegramError(message) && e.catchWrite.Applied() then 1 else 0
  {
    hide Settle, AttemptFailed;
    var now := Interrupt(d, e.gaps.beforeCatch);
    var counted := AttemptFailed(now, seen.attempts, e.catchWrite);
    InterruptCounts(d, e.gaps.beforeCatch);
    SettleCounts(now, OweFailed, e.settleWrite);
    AttemptCounts(now, seen.attempts, e.catchWrite);
    InterruptCounts(counted, e.gaps.beforeNotice);
    CountsNote(Interrupt(counted, e.gaps.beforeNotice), Said(GivenUp(|seen.clips|)));
  }

  lemma TryCounts(d: Row, e: PassEnv)
    requires d.owed.None?
    ensures Counts(Tried(d, e).row.log) == Counts(d.log) + if CountDue(d, e) && e.attemptWrite.Applied() then 1 else 0
  {
    hide Conclude, SendClips;
    var turn := AtTurn(d, e);
    CountsNote(d, Picked);
    InterruptCounts(Note(d, Picked), e.gaps.beforeTurn);
    ConcludeCounts(turn, FailureNotice, OweFailureNotified, e);
    ConcludeCounts(turn, NoClips, OweDelivered, e);
    SendClipsCounts(turn, SeenOf(d), e);
  }

  /** The attempt reached the table inside the try block, and something behind it threw. Before the last
      attempt that can only be the counting write itself; on the last one it can also be the summary
      that follows a heard count. */
  predicate CountedThenThrew(d: Row, e: PassEnv) {
    && CountDue(d, e)
    && if e.attemptWrite.Threw? then e.attemptWrite.applied && !IsPermanentTelegramError(e.attemptWrite.message)
       else Terminal(d.attempts) && e.summary.Unconfirmed? && !IsPermanentTelegramError(e.summary.message)
  }

  /** A pickup spends at most two attempts, and it spends two if and only if the try block counted and
      then threw, and the catch block's own count reached the table as well. */
  lemma TwoAttemptsIff(d: Row, e: PassEnv)
    requires d.owed.None?
    ensures Counts(RowPass(d, e).log) <= Counts(d.log) + 2
    ensures Counts(RowPass(d, e).log) == Counts(d.log) + 2 <==> CountedThenThrew(d, e) && e.catchWrite.Applied()
  {
    hide CatchBody;
    var a := Tried(d, e);
    TryCounts(d, e);
    if a.threw.Some? {
      CatchCounts(a.row, SeenOf(d), a.threw.value, e);
    }
  }
}
