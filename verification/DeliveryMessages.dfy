/** What one poll puts before the user and how it settles the row behind it, read off the script and held
    against the clips as the poll leaves them. */
module DeliveryMessages {
  import opened Wrappers
  import opened ClipDelivery
  import opened DeliveryRow
  import opened DeliveryTruth
  import opened DeliveryPresses

  /** What the user sees happen: outcome messages, and the progress board coming down. */
  function Shown(log: seq<Event>): seq<Event> {
    if log == [] then []
    else
      var last := log[|log| - 1];
      Shown(log[..|log| - 1]) + if last.Said? || last == BoardRemoval then [last] else []
  }

  lemma ShownNote(d: Row, e: Event)
    ensures Shown(Note(d, e).log) == Shown(d.log) + if e.Said? || e == BoardRemoval then [e] else []
  {
    assert (d.log + [e])[..|d.log|] == d.log;
  }

  lemma LandShows(d: Row, i: Interruption)
    ensures Shown(Land(d, i).log) == Shown(d.log)
  {
    hide Shown;
    match i {
      case Pressed => ShownNote(d.(status := PENDING, attempts := 0), Opened(ByPress, d.owed.Some?));
      case Moved(job, clips) =>
        var moved := WithJob(d, job, clips);
        ShownNote(moved, Opened(ByHeal, d.owed.Some?));
    }
  }

  lemma {:induction false} InterruptShows(d: Row, gap: seq<Interruption>)
    ensures Shown(Interrupt(d, gap).log) == Shown(d.log)
  {
    hide Land;
    if gap != [] {
      InterruptShows(d, gap[..|gap| - 1]);
      LandShows(Interrupt(d, gap[..|gap| - 1]), gap[|gap| - 1]);
    }
  }

  lemma StatusWriteShows(d: Row, status: Status, attempts: nat, e: Event, w: Write)
    requires e.Counted? || e.Wrote?
    ensures Shown(StatusWrite(d, status, attempts, e, w).log) == Shown(d.log)
  {
    hide Shown;
    var written := d.(status := status, attempts := attempts);
    ShownNote(written, e);
    ShownNote(Note(written, e), Opened(ByHeal, false));
    ShownNote(if w.Applied() then NoteHeal(d, Note(written, e), false) else d, StatusWriteFailed);
  }

  lemma FlushShows(d: Row, owed: OwedWrite, w: Write)
    ensures Shown(FlushOwed(d, owed, w).log) == Shown(d.log)
  {
    hide StatusWrite;
    match owed {
      case OweDelivered => StatusWriteShows(d, DELIVERED, 0, Wrote(DELIVERED), w);
      case OweFailureNotified => StatusWriteShows(d, FAILURE_NOTIFIED, 0, Wrote(FAILURE_NOTIFIED), w);
      case OweFailed => StatusWriteShows(d, FAILED, d.attempts, Wrote(FAILED), w);
    }
  }

  lemma SettleShows(d: Row, owed: OwedWrite, w: Write)
    ensures Shown(Settle(d, owed, w).log) == Shown(d.log)
  {
    hide FlushOwed;
    FlushShows(d.(owed := Some(owed)), owed, w);
  }

  lemma AttemptShows(d: Row, a: nat, w: Write)
    ensures Shown(AttemptFailed(d, a, w).log) == Shown(d.log)
  {
    hide StatusWrite;
    StatusWriteShows(d, if Terminal(a) then FAILED else d.status, d.attempts + 1, Counted, w);
  }

  function WithBoard(m: Message, board: bool): seq<Event> {
    [Said(m)] + if board then [BoardRemoval] else []
  }

  /** How a row was settled: owed if the write was not heard, and written if it reached the table. */
  predicate SettledAs(d: Row, owed: OwedWrite, w: Write) {
    && d.owed == (if w.Stored? then None else Some(owed))
    && (w.Applied() ==> d.status == StatusOf(owed) && (owed != OweFailed ==> d.attempts == 0))
  }

  lemma ConcludeShows(d: Row, m: Message, owed: OwedWrite, e: PassEnv)
    ensures var r := Conclude(d, m, owed, e);
            && Shown(r.row.log) == Shown(d.log) + (if e.summary.Confirmed? then WithBoard(m, d.board) else [])
            && (e.summary.Confirmed? ==> SettledAs(r.row, owed, e.settleWrite))
  {
    hide Settle, Shown;
    var now := Interrupt(d, e.gaps.beforeMessage);
    var bare := RemoveBoard(Say(now, m));
    InterruptShows(d, e.gaps.beforeMessage);
    InterruptFrame(d, e.gaps.beforeMessage);
    ShownNote(now, Said(m));
    ShownNote(Say(now, m), BoardRemoval);
    InterruptShows(bare, e.gaps.beforeSettle);
    SettleShows(Interrupt(bare, e.gaps.beforeSettle), owed, e.settleWrite);
    SettleFrame(Interrupt(bare, e.gaps.beforeSettle), owed, e.settleWrite);
  }

  /** The message and the settle the branches of the try block end in. */
  function Word(d: Row, e: PassEnv): Message {
    if d.job == JobFailed then FailureNotice
    else if d.clips == [] then NoClips
    else Summary(InChat(d.clips, e), |d.clips|)
  }

  function Kind(d: Row, e: PassEnv): OwedWrite {
    if d.job == JobFailed then OweFailureNotified
    else if InChat(d.clips, e) < |d.clips| then OweFailed else OweDelivered
  }

  lemma SendClipsShows(d: Row, e: PassEnv)
    requires d.owed.None? && d.job != JobFailed && d.clips != [] && e.locale.None?
    ensures var turn, r := AtTurn(d, e), SendClips(AtTurn(d, e), SeenOf(d), e);
            && Shown(r.row.log)
               == Shown(turn.log) + (if WordDue(d, e) then WithBoard(Word(d, e), turn.board) else [])
            && (WordDue(d, e) ==> SettledAs(r.row, Kind(d, e), e.settleWrite))
  {
    hide Conclude, AttemptFailed, Interrupt, Sends, InChat, Shown, SettledAs, WithBoard;
    var turn := AtTurn(d, e);
    var sent := turn.(clips := Sends(d.clips, e).clips);
    var now := Interrupt(sent, e.gaps.beforeAttempt);
    InterruptFrame(sent, e.gaps.beforeAttempt);
    InterruptShows(sent, e.gaps.beforeAttempt);
    AttemptFrame(now, d.attempts, e.attemptWrite);
    AttemptShows(now, d.attempts, e.attemptWrite);
    ConcludeShows(sent, Word(d, e), Kind(d, e), e);
    ConcludeShows(AttemptFailed(now, d.attempts, e.attemptWrite), Word(d, e), Kind(d, e), e);
  }

  /** The poll reaches an outcome message and Telegram confirms it. */
  predicate WordDue(d: Row, e: PassEnv) {
    d.owed.None? && MessageDue(d, e) && e.summary.Confirmed?
  }

  lemma TryShows(d: Row, e: PassEnv)
    requires d.owed.None?
    ensures var a := Tried(d, e);
            && Shown(a.row.log) == Shown(d.log) + (if WordDue(d, e) then WithBoard(Word(d, e), d.board) else [])
            && (WordDue(d, e) ==> SettledAs(a.row, Kind(d, e), e.settleWrite))
  {
    hide SendClips, Conclude, Shown, SettledAs, WithBoard, Sends;
    var turn := AtTurn(d, e);
    ShownNote(d, Picked);
    InterruptShows(Note(d, Picked), e.gaps.beforeTurn);
    InterruptFrame(Note(d, Picked), e.gaps.beforeTurn);
    ConcludeShows(turn, FailureNotice, OweFailureNotified, e);
    ConcludeShows(turn, NoClips, OweDelivered, e);
    if d.job != JobFailed && d.clips != [] && e.locale.None? {
      SendClipsShows(d, e);
    } else if d.clips == [] {
      NothingToCount(e);
    }
  }

  lemma NothingToCount(e: PassEnv)
    ensures InChat([], e) == 0
  {
  }

  /** The try block threw on the last attempt, the count was heard and the notice went out. */
  predicate CaughtOnLastAttempt(d: Row, e: PassEnv) {
    && ThrownBy(d, e).Some? && !IsPermanentTelegramError(ThrownBy(d, e).value)
    && e.catchWrite.Stored? && Terminal(d.attempts) && e.notice.Confirmed?
  }

  /** The try block threw, and no later attempt could do better. */
  predicate ChatIsGone(d: Row, e: PassEnv) {
    ThrownBy(d, e).Some? && IsPermanentTelegramError(ThrownBy(d, e).value)
  }

  lemma CatchShows(d: Row, seen: Seen, message: string, e: PassEnv)
    ensures var r := CatchBody(d, seen, message, e);
            var last := !IsPermanentTelegramError(message) && e.catchWrite.Stored? && Terminal(seen.attempts);
            && Shown(r.log)
               == Shown(d.log) + (if last && e.notice.Confirmed? then [Said(GivenUp(|seen.clips|))] else [])
            && (IsPermanentTelegramError(message) ==> SettledAs(r, OweFailed, e.settleWrite))
  {
    hide AttemptFailed, Settle, Shown;
    var now := Interrupt(d, e.gaps.beforeCatch);
    InterruptShows(d, e.gaps.beforeCatch);
    SettleShows(now, OweFailed, e.settleWrite);
    SettleFrame(now, OweFailed, e.settleWrite);
    var counted := AttemptFailed(now, seen.attempts, e.catchWrite);
    AttemptShows(now, seen.attempts, e.catchWrite);
    InterruptShows(counted, e.gaps.beforeNotice);
    ShownNote(Interrupt(counted, e.gaps.beforeNotice), Said(GivenUp(|seen.clips|)));
  }

  /** What a poll adds to what the user sees. */
  function Adds(d: Row, e: PassEnv): seq<Event> {
    if WordDue(d, e) then WithBoard(Word(d, e), d.board)
    else if d.owed.None? && CaughtOnLastAttempt(d, e) then [Said(GivenUp(|d.clips|))] else []
  }

  lemma PassShows(d: Row, e: PassEnv)
    ensures Shown(RowPass(d, e).log) == Shown(d.log) + Adds(d, e)
    ensures WordDue(d, e) ==> SettledAs(RowPass(d, e), Kind(d, e), e.settleWrite)
    ensures d.owed.None? && ChatIsGone(d, e) ==> SettledAs(RowPass(d, e), OweFailed, e.settleWrite)
  {
    hide TryBody, CatchBody, FlushOwed, Shown, SettledAs, WithBoard, Word, Kind;
    if d.owed.Some? {
      ShownNote(d, Picked);
      InterruptShows(Note(d, Picked), e.gaps.beforeTurn);
      FlushShows(AtTurn(d, e), d.owed.value, e.settleWrite);
    } else {
      TryShows(d, e);
      TriedThrows(d, e);
      var a := Tried(d, e);
      if a.threw.Some? {
        CatchShows(a.row, SeenOf(d), a.threw.value, e);
      }
    }
  }

  /******* Held against the clips *******/

  /** What each message says of the row as the poll met it and of the clips as the poll leaves them. With
      k recorded clips, u of them by a write that was not heard, at most one message fits: the five rule
      each other out. */
  predicate Fits(m: Message, d: Row, after: seq<Clip>, u: nat) {
    match m
    case FailureNotice => d.job == JobFailed
    case NoClips => d.job != JobFailed && d.clips == []
    case Done(total) => d.job != JobFailed && total == |d.clips| > 0 && CountRecorded(after) == total && u == 0
    case Partial(inChat, total) =>
      d.job != JobFailed && total == |d.clips| && 0 < inChat < total && CountRecorded(after) == inChat + u
    case GivenUp(total) => d.job != JobFailed && total == |d.clips| > 0 && CountRecorded(after) == u
  }

  /** The status that goes with each message. */
  predicate SettledFor(m: Message, d: Row, w: Write) {
    match m
    case FailureNotice => SettledAs(d, OweFailureNotified, w)
    case NoClips => SettledAs(d, OweDelivered, w)
    case Done(_) => SettledAs(d, OweDelivered, w)
    case Partial(_, _) => SettledAs(d, OweFailed, w)
    case GivenUp(_) => SettledAs(d, OweFailed, w)
  }

  function UnheardIn(d: Row, e: PassEnv): nat {
    CountUnheard(d.clips, e.clips, e.maxBytes, |d.clips|)
  }

  /** All that a poll shows the user, and what becomes of the row behind it. */
  predicate Tells(d: Row, e: PassEnv, after: Row, told: seq<Event>) {
    if WordDue(d, e) then
      && |told| == (if d.board then 2 else 1) && told[0].Said?
      && Fits(told[0].message, d, after.clips, UnheardIn(d, e))
      && SettledFor(told[0].message, after, e.settleWrite)
      && (d.board ==> told[1] == BoardRemoval)
    else if d.owed.None? && CaughtOnLastAttempt(d, e) then told == [Said(GivenUp(|d.clips|))]
    else told == [] && (d.owed.None? && ChatIsGone(d, e) ==> SettledAs(after, OweFailed, e.settleWrite))
  }

  lemma WordFits(d: Row, e: PassEnv)
    requires WordDue(d, e) && (d.job != JobFailed ==> d.finished)
    ensures Fits(Word(d, e), d, RowPass(d, e).clips, UnheardIn(d, e))
    ensures SettledFor(Word(d, e), RowPass(d, e), e.settleWrite)
  {
    hide RowPass, SettledAs;
    PassShows(d, e);
    if d.job != JobFailed {
      PassClips(d, e);
      if d.clips == [] {
        NothingToCount(e);
      } else {
        hide Sends;
        SummaryIsExact(d.clips, e);
        SendsHeard(d, e);
      }
    }
  }

  lemma SendsHeard(d: Row, e: PassEnv)
    requires Sends(d.clips, e).escaped.None?
    ensures Sends(d.clips, e).unheard == UnheardIn(d, e)
    ensures Sends(d.clips, e).unheard <= Sends(d.clips, e).pending
  {
    DeliveredMeansHeard(d.clips, e.clips, e.maxBytes, |d.clips|);
    CountersAreExact(d.clips, e.clips, e.maxBytes, |d.clips|);
  }

  /** A confirmed outcome message names the numbers that are true of the clips the poll leaves, short only
      of those recorded by a write that was not heard; the board comes down right behind it if there is
      one, and the row is settled as the message says. The only other message is the notice behind a count
      of the last attempt. */
  lemma PassTellsTheTruth(d: Row, e: PassEnv) returns (told: seq<Event>)
    requires d.job != JobFailed ==> d.finished
    ensures Shown(RowPass(d, e).log) == Shown(d.log) + told
    ensures Tells(d, e, RowPass(d, e), told)
  {
    hide RowPass, SettledAs, Word, Fits, SettledFor, Shown;
    told := Adds(d, e);
    PassShows(d, e);
    if WordDue(d, e) {
      WordFits(d, e);
    }
  }

  lemma OtherStepsShowNothing(d: Row, s: Step)
    requires !(s.Poll? && Pickable(d))
    ensures Shown(Next(d, s).log) == Shown(d.log)
  {
    hide Shown;
    match s {
      case Poll(_) =>
      case ResendPress(_, _) => LandShows(d, Pressed);
      case JobMoves(job, clips) => LandShows(d, Moved(job, clips));
    }
  }

  /** Over every run: nothing is shown but by a poll that picks the row up, and what that poll shows is what
      it should tell. */
  lemma RunTellsTheTruth(board: bool, steps: seq<Step>, s: Step) returns (told: seq<Event>)
    requires LegalRun(steps)
    ensures var d, after := Run(Created(board), steps), Run(Created(board), steps + [s]);
            && Shown(after.log) == Shown(d.log) + told
            && if s.Poll? && Pickable(d) then Tells(d, s.env, after, told) else told == []
  {
    hide RowPass, Tells, Shown;
    var d := Run(Created(board), steps);
    RunOne(Created(board), steps, s);
    RunTruth(board, steps);
    if s.Poll? && Pickable(d) {
      told := PassTellsTheTruth(d, s.env);
    } else {
      told := [];
      OtherStepsShowNothing(d, s);
    }
  }
}
