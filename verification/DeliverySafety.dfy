/** What the delivery protocol keeps over every run of polls, presses, job moves and failures. */
module DeliverySafety {
  import opened Wrappers
  import opened ClipDelivery
  import opened DeliveryRow

  /** Since the row last opened; `owed`: a status write was outstanding then. */
  datatype Since = Since(pickups: nat, failures: nat, owed: bool)

  /** What a log holds of each kind, and whether no opening ever cost more than its allowance. `grants`
      counts the openings somebody asked for: the creation and the presses, but no heal; `notices` the
      messages that are failure notices. */
  datatype Tallies = Tallies(openings: nat, grants: nat, pickups: nat, messages: nat, notices: nat, failures: nat,
                             since: Since, kept: bool)

  /** What one opening may cost: the attempt budget, the failed status writes, and one pickup for a
      write that was owed already. */
  function Allowance(s: Since): nat {
    MAX_ATTEMPTS + s.failures + if s.owed then 1 else 0
  }

  function Add(t: Tallies, e: Event): Tallies {
    match e
    case Opened(how, owed) =>
      t.(openings := t.openings + 1, grants := t.grants + if how == ByHeal then 0 else 1, since := Since(0, 0, owed))
    case Picked =>
      t.(pickups := t.pickups + 1, since := t.since.(pickups := t.since.pickups + 1),
         kept := t.kept && t.since.pickups < Allowance(t.since))
    case Said(m) => t.(messages := t.messages + 1, notices := t.notices + if m.FailureNotice? then 1 else 0)
    case StatusWriteFailed => t.(failures := t.failures + 1, since := t.since.(failures := t.since.failures + 1))
    case _ => t
  }

  function Tally(log: seq<Event>): Tallies {
    if log == [] then Tallies(0, 0, 0, 0, 0, 0, Since(0, 0, false), true)
    else Add(Tally(log[..|log| - 1]), log[|log| - 1])
  }

  function TalliesOf(d: Row): Tallies {
    Tally(d.log)
  }

  lemma TalliesNote(d: Row, e: Event)
    ensures TalliesOf(Note(d, e)) == Add(TalliesOf(d), e)
  {
    assert (d.log + [e])[..|d.log|] == d.log;
  }

  predicate WithinAllowance(log: seq<Event>) {
    Tally(log).since.pickups <= Allowance(Tally(log).since)
  }

  lemma KeptStep(front: seq<Event>, e: Event)
    requires Tally(front).kept ==> WithinAllowance(front)
    ensures Tally(front + [e]).kept <==> Tally(front).kept && WithinAllowance(front + [e])
  {
    assert (front + [e])[..|front|] == front;
  }

  predicate AlwaysWithinAllowance(log: seq<Event>) {
    forall n :: 0 <= n <= |log| ==> WithinAllowance(log[..n])
  }

  lemma AlwaysStep(front: seq<Event>, e: Event)
    ensures AlwaysWithinAllowance(front + [e]) <==> AlwaysWithinAllowance(front) && WithinAllowance(front + [e])
  {
    hide WithinAllowance;
    var log := front + [e];
    assert forall n :: 0 <= n <= |front| ==> front[..n] == log[..n];
    assert log[..|log|] == log;
  }

  /** `kept` speaks of the whole history: at no point of it had the opening under way cost more than
      its allowance. */
  lemma {:induction false} KeptMeansAlways(log: seq<Event>)
    ensures Tally(log).kept <==> AlwaysWithinAllowance(log)
  {
    if log == [] {
      assert log[..0] == [];
    } else {
      var front, e := log[..|log| - 1], log[|log| - 1];
      KeptMeansAlways(front);
      assert front[..|front|] == front;
      assert AlwaysWithinAllowance(front) ==> WithinAllowance(front[..|front|]);
      KeptStep(front, e);
      AlwaysStep(front, e);
      assert front + [e] == log;
    }
  }

  /** Can a later pickup still say something about this opening? An owed failure notice that
      already reached the table leaves a healed row pickable behind it. */
  predicate MaySpeak(d: Row) {
    match d.owed
    case None => d.status == PENDING || Healed(d)
    case Some(k) => k == OweFailureNotified && Healed(d)
  }

  function AttemptsLeft(attempts: nat): nat {
    if attempts < MAX_ATTEMPTS then MAX_ATTEMPTS - attempts else 1
  }

  /** Pickups the row can still cost without another opening or another failed write. */
  function Budget(d: Row): nat {
    (if d.owed.Some? then 1 else 0) +
    (if !MaySpeak(d) then 0 else if d.owed.Some? then MAX_ATTEMPTS else AttemptsLeft(d.attempts))
  }

  /** What openings and failed status writes pay for over the whole run. */
  function Paid(t: Tallies): nat {
    MAX_ATTEMPTS * t.openings + t.failures
  }

  /** p more pickups are paid for, by the run as a whole and by the opening under way. */
  predicate Affords(t: Tallies, p: int) {
    && t.kept
    && t.pickups + p <= Paid(t)
    && t.since.pickups + p <= Allowance(t.since)
  }

  predicate Accounts(d: Row) {
    var t := TalliesOf(d);
    && t.messages + (if MaySpeak(d) then 1 else 0) <= t.openings
    && Affords(t, Budget(d))
  }

  /** Inside a pass that read a as the attempt count and has said nothing yet. */
  predicate Silent(d: Row, a: nat) {
    var t := TalliesOf(d);
    && d.owed.None?
    && t.messages + 1 <= t.openings
    && ((Affords(t, AttemptsLeft(a) - 1) && a <= d.attempts) || Affords(t, MAX_ATTEMPTS))
  }

  /** Inside a pass whose outcome message is in the chat and whose status is not written. */
  predicate Spoken(d: Row) {
    d.owed.None? && TalliesOf(d).messages <= TalliesOf(d).openings && Affords(TalliesOf(d), 0)
  }

  /** Inside the pass of an owed row, whose pickup is not paid for yet. */
  predicate Owing(d: Row) {
    var t := TalliesOf(d);
    && d.owed.Some?
    && t.messages + (if MaySpeak(d) then 1 else 0) <= t.openings
    && Affords(t, Budget(d) - 1)
  }

  /** The write reached the table, and that made the row pickable again. */
  predicate Heals(d: Row, status: Status, w: Write) {
    w.Applied() && !Healed(d) && status == FAILURE_NOTIFIED && d.job == JobDone
  }

  lemma StatusWriteTallies(d: Row, status: Status, attempts: nat, e: Event, w: Write)
    requires e.Counted? || e.Wrote?
    ensures var r := StatusWrite(d, status, attempts, e, w);
            var t := if Heals(d, status, w) then Add(TalliesOf(d), Opened(ByHeal, false)) else TalliesOf(d);
            && TalliesOf(r) == (if w.Threw? then Add(t, StatusWriteFailed) else t)
            && r.owed == d.owed && r.job == d.job && r.clips == d.clips
            && r.status == (if w.Applied() then status else d.status)
            && r.attempts == (if w.Applied() then attempts else d.attempts)
  {
    var noted := Note(d.(status := status, attempts := attempts), e);
    TalliesNote(d.(status := status, attempts := attempts), e);
    TalliesNote(noted, Opened(ByHeal, false));
    TalliesNote(if w.Applied() then NoteHeal(d, noted, false) else d, StatusWriteFailed);
  }

  lemma FlushTallies(d: Row, owed: OwedWrite, w: Write)
    ensures var r := FlushOwed(d, owed, w);
            var t := if Heals(d, StatusOf(owed), w) then Add(TalliesOf(d), Opened(ByHeal, false)) else TalliesOf(d);
            && TalliesOf(r) == (if w.Threw? then Add(t, StatusWriteFailed) else t)
            && r.owed == d.owed && r.job == d.job && r.clips == d.clips
            && r.status == (if w.Applied() then StatusOf(owed) else d.status)
            && (w.Applied() && owed == OweFailureNotified ==> r.attempts == 0)
  {
    match owed {
      case OweDelivered => StatusWriteTallies(d, DELIVERED, 0, Wrote(DELIVERED), w);
      case OweFailureNotified => StatusWriteTallies(d, FAILURE_NOTIFIED, 0, Wrote(FAILURE_NOTIFIED), w);
      case OweFailed => StatusWriteTallies(d, FAILED, d.attempts, Wrote(FAILED), w);
    }
  }

  /******* Interruptions *******/

  lemma LandTallies(d: Row, i: Interruption)
    ensures var r := Land(d, i);
            && r.owed == d.owed
            && r.status == (if i.Pressed? then PENDING else d.status)
            && r.attempts == (if i.Pressed? then 0 else d.attempts)
            && (i.Moved? ==> r.job == i.job)
            && TalliesOf(r) == (if i.Pressed? then Add(TalliesOf(d), Opened(ByPress, d.owed.Some?))
                                else if Healed(r) && !Healed(d) then Add(TalliesOf(d), Opened(ByHeal, d.owed.Some?))
                                else TalliesOf(d))
  {
    match i {
      case Pressed => TalliesNote(d.(status := PENDING, attempts := 0), Opened(ByPress, d.owed.Some?));
      case Moved(job, clips) =>
        var moved := WithJob(d, job, clips);
        TalliesNote(moved, Opened(ByHeal, d.owed.Some?));
    }
  }

  /** Whatever lands, each of the four states of the books is kept. */
  lemma LandKeepsBooks(d: Row, i: Interruption, a: nat)
    ensures Accounts(d) ==> Accounts(Land(d, i))
    ensures Silent(d, a) ==> Silent(Land(d, i), a)
    ensures Spoken(d) ==> Spoken(Land(d, i))
    ensures Owing(d) ==> Owing(Land(d, i))
  {
    LandTallies(d, i);
  }

  lemma {:induction false} InterruptKeepsBooks(d: Row, gap: seq<Interruption>, a: nat)
    ensures Silent(d, a) ==> Silent(Interrupt(d, gap), a)
    ensures Spoken(d) ==> Spoken(Interrupt(d, gap))
    ensures Owing(d) ==> Owing(Interrupt(d, gap))
  {
    if gap != [] {
      InterruptKeepsBooks(d, gap[..|gap| - 1], a);
      LandKeepsBooks(Interrupt(d, gap[..|gap| - 1]), gap[|gap| - 1], a);
    }
  }

  /******* One pass *******/

  lemma SettleAccounts(d: Row, owed: OwedWrite, w: Write)
    requires Spoken(d)
    requires owed == OweFailureNotified ==> d.status != FAILURE_NOTIFIED
    ensures Accounts(Settle(d, owed, w))
  {
    hide FlushOwed;
    FlushTallies(d.(owed := Some(owed)), owed, w);
  }

  lemma FinishAccounts(d: Row, owed: OwedWrite, e: PassEnv)
    requires Spoken(d)
    requires owed == OweFailureNotified ==> d.status != FAILURE_NOTIFIED
    ensures Accounts(Finish(d, owed, e))
  {
    var bare := RemoveBoard(d);
    TalliesNote(d, BoardRemoval);
    InterruptKeepsBooks(bare, e.gaps.beforeSettle, 0);
    InterruptFrame(bare, e.gaps.beforeSettle);
    SettleAccounts(Interrupt(bare, e.gaps.beforeSettle), owed, e.settleWrite);
  }

  lemma AttemptTallies(d: Row, a: nat, w: Write)
    ensures var r := AttemptFailed(d, a, w);
            && TalliesOf(r) == (if w.Threw? then Add(TalliesOf(d), StatusWriteFailed) else TalliesOf(d))
            && r.owed == d.owed && r.job == d.job
            && r.status == (if w.Applied() && Terminal(a) then FAILED else d.status)
            && d.attempts <= r.attempts && (w.Stored? ==> r.attempts == d.attempts + 1)
  {
    hide StatusWrite;
    StatusWriteTallies(d, if Terminal(a) then FAILED else d.status, d.attempts + 1, Counted, w);
  }

  /** A failed attempt whose write failed, or that retired the row, leaves the pass going ... */
  lemma AttemptStaysSilent(d: Row, a: nat, w: Write)
    requires Silent(d, a) && (w.Threw? || Terminal(a))
    ensures Silent(AttemptFailed(d, a, w), a)
    ensures w.Stored? ==> AttemptFailed(d, a, w).status == FAILED
  {
    hide AttemptFailed;
    AttemptTallies(d, a, w);
  }

  /** ... and one that does not retire the row keeps the books where the pass ends on it. */
  lemma AttemptAccounts(d: Row, a: nat, w: Write)
    requires Silent(d, a) && (w.Threw? || !Terminal(a))
    ensures Accounts(AttemptFailed(d, a, w))
  {
    hide AttemptFailed;
    AttemptTallies(d, a, w);
    assert Budget(AttemptFailed(d, a, w)) <= AttemptsLeft(AttemptFailed(d, a, w).attempts);
  }

  lemma ConcludeAccounts(d: Row, a: nat, m: Message, owed: OwedWrite, e: PassEnv)
    requires Silent(d, a)
    requires owed == OweFailureNotified ==> d.status != FAILURE_NOTIFIED
    ensures var r := Conclude(d, m, owed, e);
            if r.threw.Some? then Silent(r.row, a) else Accounts(r.row)
  {
    var now := Interrupt(d, e.gaps.beforeMessage);
    InterruptKeepsBooks(d, e.gaps.beforeMessage, a);
    InterruptFrame(d, e.gaps.beforeMessage);
    if e.summary.Confirmed? {
      TalliesNote(now, Said(m));
      FinishAccounts(Say(now, m), owed, e);
    }
  }

  lemma SummariseAccounts(d: Row, a: nat, inChat: nat, total: nat, e: PassEnv)
    requires Silent(d, a)
    ensures var r := Summarise(d, inChat, total, e);
            if r.threw.Some? then Silent(r.row, a) else Accounts(r.row)
  {
    ConcludeAccounts(d, a, Summary(inChat, total), if inChat < total then OweFailed else OweDelivered, e);
  }

  lemma SendClipsAccounts(d: Row, seen: Seen, e: PassEnv)
    requires Silent(d, seen.attempts)
    ensures var r := SendClips(d, seen, e);
            if r.threw.Some? then Silent(r.row, seen.attempts) else Accounts(r.row)
  {
    hide Conclude, AttemptFailed;
    var a, inChat, total, p := seen.attempts, InChat(seen.clips, e), |seen.clips|, Sends(seen.clips, e);
    var sent := d.(clips := p.clips);
    var now := Interrupt(sent, e.gaps.beforeAttempt);
    InterruptKeepsBooks(sent, e.gaps.beforeAttempt, a);
    if p.escaped.None? {
      if p.pending == 0 {
        SummariseAccounts(sent, a, inChat, total, e);
      } else if e.attemptWrite.Stored? && !Terminal(a) {
        AttemptAccounts(now, a, e.attemptWrite);
      } else {
        AttemptStaysSilent(now, a, e.attemptWrite);
        SummariseAccounts(AttemptFailed(now, a, e.attemptWrite), a, inChat, total, e);
      }
    }
  }

  lemma TryAccounts(d: Row, seen: Seen, e: PassEnv)
    requires Silent(d, seen.attempts) && (seen.job == JobFailed ==> d.status != FAILURE_NOTIFIED)
    ensures var r := TryBody(d, seen, e);
            if r.threw.Some? then Silent(r.row, seen.attempts) else Accounts(r.row)
  {
    hide Conclude, SendClips;
    if e.locale.None? {
      if seen.job == JobFailed {
        ConcludeAccounts(d, seen.attempts, FailureNotice, OweFailureNotified, e);
      } else if seen.clips == [] {
        ConcludeAccounts(d, seen.attempts, NoClips, OweDelivered, e);
      } else {
        SendClipsAccounts(d, seen, e);
      }
    }
  }

  lemma NoticeAccounts(d: Row, a: nat, total: nat, e: PassEnv)
    requires Silent(d, a) && d.status == FAILED
    ensures Accounts(GiveNotice(d, total, e))
  {
    var now := Interrupt(d, e.gaps.beforeNotice);
    InterruptFrame(d, e.gaps.beforeNotice);
    NoticeRoom(d, e.gaps.beforeNotice, a);
    TalliesNote(now, Said(GivenUp(total)));
  }

  /** A retired row has room for one more message, and one more still if a press reopens it. */
  lemma {:induction false} NoticeRoom(d: Row, gap: seq<Interruption>, a: nat)
    requires Silent(d, a) && d.status == FAILED
    ensures var r := Interrupt(d, gap);
            var t := TalliesOf(r);
            && (r.status == FAILED || (r.status == PENDING && t.messages + 2 <= t.openings && Affords(t, MAX_ATTEMPTS)))
            && Silent(r, a) && (r.status == PENDING ==> r.attempts == 0)
  {
    if gap != [] {
      NoticeRoom(d, gap[..|gap| - 1], a);
      LandTallies(Interrupt(d, gap[..|gap| - 1]), gap[|gap| - 1]);
      LandKeepsBooks(Interrupt(d, gap[..|gap| - 1]), gap[|gap| - 1], a);
    }
  }

  lemma CatchAccounts(d: Row, seen: Seen, message: string, e: PassEnv)
    requires Silent(d, seen.attempts)
    ensures Accounts(CatchBody(d, seen, message, e))
  {
    hide AttemptFailed, GiveNotice, Settle;
    var a, now := seen.attempts, Interrupt(d, e.gaps.beforeCatch);
    InterruptKeepsBooks(d, e.gaps.beforeCatch, a);
    if IsPermanentTelegramError(message) {
      SettleAccounts(now, OweFailed, e.settleWrite);
    } else if e.catchWrite.Threw? || !Terminal(a) {
      AttemptAccounts(now, a, e.catchWrite);
    } else {
      AttemptStaysSilent(now, a, e.catchWrite);
      NoticeAccounts(AttemptFailed(now, a, e.catchWrite), a, |seen.clips|, e);
    }
  }

  lemma FlushAccounts(d: Row, owed: OwedWrite, e: PassEnv)
    requires Owing(d) && d.owed == Some(owed)
    ensures Accounts(FlushPass(d, owed, e))
  {
    hide FlushOwed;
    FlushTallies(d, owed, e.settleWrite);
  }

  /** One pass keeps the books, whatever it meets. */
  lemma PassAccounts(d: Row, e: PassEnv)
    requires Accounts(d) && Pickable(d)
    ensures Accounts(RowPass(d, e))
  {
    var picked, turn := Note(d, Picked), AtTurn(d, e);
    TalliesNote(d, Picked);
    InterruptKeepsBooks(picked, e.gaps.beforeTurn, d.attempts);
    InterruptFrame(picked, e.gaps.beforeTurn);
    if d.owed.Some? {
      assert Owing(picked);
      FlushAccounts(turn, d.owed.value, e);
    } else {
      assert Silent(picked, d.attempts);
      TryAccounts(turn, SeenOf(d), e);
      var a := Tried(d, e);
      if a.threw.Some? {
        CatchAccounts(a.row, SeenOf(d), a.threw.value, e);
      }
    }
  }

  lemma StepAccounts(d: Row, s: Step)
    requires Accounts(d)
    ensures Accounts(Next(d, s))
  {
    hide RowPass;
    match s {
      case Poll(env) => if Pickable(d) { PassAccounts(d, env); }
      case ResendPress(ownRow, w) => LandKeepsBooks(d, Pressed, 0);
      case JobMoves(job, clips) => LandKeepsBooks(d, Moved(job, clips), 0);
    }
  }

  /** Over every run, whatever fails and wherever presses and job moves land: at most one outcome
      message per opening, and no opening ever costs more than MAX_ATTEMPTS pickups, one per status
      write that failed since, and one if a write was owed when it came. Over the run as a whole that
      last one is paid for by the failure that made the write owed. */
  lemma {:induction false} RunAccounts(board: bool, steps: seq<Step>)
    ensures var d := Run(Created(board), steps);
            && Accounts(d)
            && Tally(d.log).messages <= Tally(d.log).openings
            && AlwaysWithinAllowance(d.log)
            && Tally(d.log).pickups <= MAX_ATTEMPTS * Tally(d.log).openings + Tally(d.log).failures
  {
    if steps == [] {
      assert Created(board).log[..0] == [];
    } else {
      RunAccounts(board, steps[..|steps| - 1]);
      StepAccounts(Run(Created(board), steps[..|steps| - 1]), steps[|steps| - 1]);
    }
    KeptMeansAlways(Run(Created(board), steps).log);
  }
}
