/** What one grant buys. A row is granted its budget by its creation and by every resend press that
    reaches the table; a heal, which is nobody's doing, grants nothing. Per grant the row is delivered at
    most twice, one failure notice and one set of clips, and picked up a bounded number of times,
    however often its job fails and is done again. */
module DeliveryGrants {
  import opened Wrappers
  import opened ClipDelivery
  import opened DeliveryRow
  import opened DeliverySafety

  /** Two budgets: one until the failure notice, one behind it. */
  const PICKUPS: nat := 24

  /** Can the row still say a failure notice without another grant? */
  function NoticesLeft(d: Row): nat {
    if d.owed.None? && d.status == PENDING then 1 else 0
  }

  /** And how the clips went? */
  function VerdictsLeft(d: Row): nat {
    match d.owed
    case None => if d.status in {PENDING, FAILURE_NOTIFIED} then 1 else 0
    case Some(k) => if k == OweFailureNotified then 1 else 0
  }

  /** Pickups it can still cost without another grant or another failed write. */
  function Reserve(d: Row): nat {
    match d.owed
    case None =>
      if d.status == PENDING then AttemptsLeft(d.attempts) + MAX_ATTEMPTS
      else if d.status == FAILURE_NOTIFIED then AttemptsLeft(d.attempts) else 0
    case Some(k) => if k == OweFailureNotified then MAX_ATTEMPTS + 1 else 1
  }

  /** What grants and failed writes pay for covers so many more notices, other messages and pickups. */
  predicate Covers(t: Tallies, notices: int, verdicts: int, pickups: int) {
    && t.notices + notices <= t.grants
    && t.messages - t.notices + verdicts <= t.grants
    && t.pickups + pickups <= PICKUPS * t.grants + t.failures
  }

  predicate Granted(d: Row) {
    Covers(TalliesOf(d), NoticesLeft(d), VerdictsLeft(d), Reserve(d))
  }

  /** Inside a pass that read a as the attempt count and has said nothing yet: nothing new was granted
      since, or everything. */
  predicate Unsaid(d: Row, a: nat) {
    var t, first := TalliesOf(d), d.status == PENDING;
    && d.owed.None?
    && (|| Covers(t, 1, 2, PICKUPS)
        || (&& a <= d.attempts && d.status != DELIVERED
            && Covers(t, if first then 1 else 0, 1, AttemptsLeft(a) - 1 + if first then MAX_ATTEMPTS else 0)))
  }

  /** Inside a pass whose outcome message is in the chat and whose status is not written. */
  predicate Said(d: Row, owed: OwedWrite) {
    && d.owed.None?
    && if owed == OweFailureNotified then Covers(TalliesOf(d), 0, 1, MAX_ATTEMPTS)
       else Covers(TalliesOf(d), 0, 0, 0)
  }

  /** Inside the pass of an owed row, whose pickup is counted already. */
  predicate Flushing(d: Row) {
    d.owed.Some? && Covers(TalliesOf(d), NoticesLeft(d), VerdictsLeft(d), Reserve(d) - 1)
  }

  /******* Interruptions *******/

  lemma LandKeepsGrants(d: Row, i: Interruption, a: nat, owed: OwedWrite)
    ensures Granted(d) ==> Granted(Land(d, i))
    ensures Unsaid(d, a) ==> Unsaid(Land(d, i), a)
    ensures Said(d, owed) ==> Said(Land(d, i), owed)
    ensures Flushing(d) ==> Flushing(Land(d, i))
  {
    LandTallies(d, i);
  }

  lemma {:induction false} InterruptKeepsGrants(d: Row, gap: seq<Interruption>, a: nat, owed: OwedWrite)
    ensures Unsaid(d, a) ==> Unsaid(Interrupt(d, gap), a)
    ensures Said(d, owed) ==> Said(Interrupt(d, gap), owed)
    ensures Flushing(d) ==> Flushing(Interrupt(d, gap))
  {
    hide Land;
    if gap != [] {
      InterruptKeepsGrants(d, gap[..|gap| - 1], a, owed);
      LandKeepsGrants(Interrupt(d, gap[..|gap| - 1]), gap[|gap| - 1], a, owed);
    }
  }

  /******* One pass *******/

  lemma SettleGranted(d: Row, owed: OwedWrite, w: Write)
    requires Said(d, owed)
    ensures Granted(Settle(d, owed, w))
  {
    hide FlushOwed;
    FlushTallies(d.(owed := Some(owed)), owed, w);
  }

  lemma FinishGranted(d: Row, owed: OwedWrite, e: PassEnv)
    requires Said(d, owed)
    ensures Granted(Finish(d, owed, e))
  {
    hide Settle;
    var bare := RemoveBoard(d);
    TalliesNote(d, BoardRemoval);
    InterruptKeepsGrants(bare, e.gaps.beforeSettle, 0, owed);
    SettleGranted(Interrupt(bare, e.gaps.beforeSettle), owed, e.settleWrite);
  }

  /** An attempt that throws, or that retires the row, leaves the pass going ... */
  lemma AttemptStaysUnsaid(d: Row, a: nat, w: Write)
    requires Unsaid(d, a) && (w.Threw? || Terminal(a))
    ensures Unsaid(AttemptFailed(d, a, w), a)
    ensures w.Stored? ==> AttemptFailed(d, a, w).status == FAILED
  {
    hide AttemptFailed;
    AttemptTallies(d, a, w);
  }

  /** ... and one that throws, or does not retire it, is a state the pass may end in. */
  lemma AttemptGranted(d: Row, a: nat, w: Write)
    requires Unsaid(d, a) && (w.Threw? || !Terminal(a))
    ensures Granted(AttemptFailed(d, a, w))
  {
    hide AttemptFailed;
    AttemptTallies(d, a, w);
  }

  lemma ConcludeGranted(d: Row, a: nat, m: Message, owed: OwedWrite, e: PassEnv)
    requires Unsaid(d, a) && (owed == OweFailureNotified <==> m == FailureNotice)
    requires m == FailureNotice ==> d.status == PENDING
    ensures var r := Conclude(d, m, owed, e);
            if r.threw.Some? then Unsaid(r.row, a) else Granted(r.row)
  {
    hide Finish;
    var now := Interrupt(d, e.gaps.beforeMessage);
    InterruptKeepsGrants(d, e.gaps.beforeMessage, a, owed);
    InterruptFrame(d, e.gaps.beforeMessage);
    if e.summary.Confirmed? {
      TalliesNote(now, DeliveryRow.Said(m));
      FinishGranted(Say(now, m), owed, e);
    }
  }

  lemma SummariseGranted(d: Row, a: nat, inChat: nat, total: nat, e: PassEnv)
    requires Unsaid(d, a)
    ensures var r := Summarise(d, inChat, total, e);
            if r.threw.Some? then Unsaid(r.row, a) else Granted(r.row)
  {
    hide Conclude;
    ConcludeGranted(d, a, Summary(inChat, total), if inChat < total then OweFailed else OweDelivered, e);
  }

  lemma SendClipsGranted(d: Row, seen: Seen, e: PassEnv)
    requires Unsaid(d, seen.attempts)
    ensures var r := SendClips(d, seen, e);
            if r.threw.Some? then Unsaid(r.row, seen.attempts) else Granted(r.row)
  {
    hide Summarise, AttemptFailed;
    var a, inChat, total, p := seen.attempts, InChat(seen.clips, e), |seen.clips|, Sends(seen.clips, e);
    var sent := d.(clips := p.clips);
    var now := Interrupt(sent, e.gaps.beforeAttempt);
    InterruptKeepsGrants(sent, e.gaps.beforeAttempt, a, OweFailed);
    if p.escaped.None? {
      if p.pending == 0 {
        SummariseGranted(sent, a, inChat, total, e);
      } else if e.attemptWrite.Stored? && !Terminal(a) {
        AttemptGranted(now, a, e.attemptWrite);
      } else {
        AttemptStaysUnsaid(now, a, e.attemptWrite);
        SummariseGranted(AttemptFailed(now, a, e.attemptWrite), a, inChat, total, e);
      }
    }
  }

  lemma TryGranted(d: Row, seen: Seen, e: PassEnv)
    requires Unsaid(d, seen.attempts) && (seen.job == JobFailed ==> d.status == PENDING)
    ensures var r := TryBody(d, seen, e);
            if r.threw.Some? then Unsaid(r.row, seen.attempts) else Granted(r.row)
  {
    hide Conclude, SendClips;
    if e.locale.None? {
      if seen.job == JobFailed {
        ConcludeGranted(d, seen.attempts, FailureNotice, OweFailureNotified, e);
      } else if seen.clips == [] {
        ConcludeGranted(d, seen.attempts, NoClips, OweDelivered, e);
      } else {
        SendClipsGranted(d, seen, e);
      }
    }
  }

  /** A retired row has room for the notice, and for two more messages if a press reopens it. */
  lemma {:induction false} NoticeCovered(d: Row, gap: seq<Interruption>)
    requires d.owed.None? && d.status == FAILED && Covers(TalliesOf(d), 0, 1, 0)
    ensures var r := Interrupt(d, gap);
            && r.owed.None?
            && (|| (r.status == FAILED && Covers(TalliesOf(r), 0, 1, 0))
                || (r.status == PENDING && r.attempts == 0 && Covers(TalliesOf(r), 1, 2, PICKUPS)))
  {
    hide Land;
    if gap != [] {
      NoticeCovered(d, gap[..|gap| - 1]);
      LandTallies(Interrupt(d, gap[..|gap| - 1]), gap[|gap| - 1]);
    }
  }

  lemma NoticeGranted(d: Row, total: nat, e: PassEnv)
    requires d.owed.None? && d.status == FAILED && Covers(TalliesOf(d), 0, 1, 0)
    ensures Granted(GiveNotice(d, total, e))
  {
    var now := Interrupt(d, e.gaps.beforeNotice);
    NoticeCovered(d, e.gaps.beforeNotice);
    TalliesNote(now, DeliveryRow.Said(GivenUp(total)));
  }

  lemma CatchGranted(d: Row, seen: Seen, message: string, e: PassEnv)
    requires Unsaid(d, seen.attempts)
    ensures Granted(CatchBody(d, seen, message, e))
  {
    hide AttemptFailed, GiveNotice, Settle;
    var a, now := seen.attempts, Interrupt(d, e.gaps.beforeCatch);
    InterruptKeepsGrants(d, e.gaps.beforeCatch, a, OweFailed);
    if IsPermanentTelegramError(message) {
      SettleGranted(now, OweFailed, e.settleWrite);
    } else if e.catchWrite.Threw? || !Terminal(a) {
      AttemptGranted(now, a, e.catchWrite);
    } else {
      AttemptStaysUnsaid(now, a, e.catchWrite);
      NoticeGranted(AttemptFailed(now, a, e.catchWrite), |seen.clips|, e);
    }
  }

  lemma FlushGranted(d: Row, owed: OwedWrite, e: PassEnv)
    requires Flushing(d) && d.owed == Some(owed)
    ensures Granted(FlushPass(d, owed, e))
  {
    hide FlushOwed;
    FlushTallies(d, owed, e.settleWrite);
  }

  lemma PassGranted(d: Row, e: PassEnv)
    requires Granted(d) && Pickable(d)
    ensures Granted(RowPass(d, e))
  {
    hide TryBody, CatchBody, FlushPass;
    var picked, turn := Note(d, Picked), AtTurn(d, e);
    TalliesNote(d, Picked);
    InterruptKeepsGrants(picked, e.gaps.beforeTurn, d.attempts, OweFailed);
    InterruptFrame(picked, e.gaps.beforeTurn);
    if d.owed.Some? {
      assert Flushing(picked);
      FlushGranted(turn, d.owed.value, e);
    } else {
      assert Unsaid(picked, d.attempts);
      TryGranted(turn, SeenOf(d), e);
      var a := Tried(d, e);
      if a.threw.Some? {
        CatchGranted(a.row, SeenOf(d), a.threw.value, e);
      }
    }
  }

  lemma StepGranted(d: Row, s: Step)
    requires Granted(d)
    ensures Granted(Next(d, s))
  {
    hide RowPass, Granted;
    match s {
      case Poll(env) => if Pickable(d) { PassGranted(d, env); }
      case ResendPress(ownRow, w) => LandKeepsGrants(d, Pressed, 0, OweFailed);
      case JobMoves(job, clips) => LandKeepsGrants(d, Moved(job, clips), 0, OweFailed);
    }
  }

  /** Over every run, whatever fails, wherever presses and job moves land, and however often the job is
      done, fails and is done again: per grant the chat is sent at most one failure notice and is told at
      most once how the clips went, and the row is picked up at most 24 times per grant and once per
      failed status write. */
  lemma {:induction false} RunIsGranted(board: bool, steps: seq<Step>)
    ensures var d := Run(Created(board), steps);
            && Granted(d)
            && TalliesOf(d).notices <= TalliesOf(d).grants
            && TalliesOf(d).messages - TalliesOf(d).notices <= TalliesOf(d).grants
            && TalliesOf(d).pickups <= PICKUPS * TalliesOf(d).grants + TalliesOf(d).failures
  {
    if steps == [] {
      assert Created(board).log[..0] == [];
    } else {
      hide Granted;
      RunIsGranted(board, steps[..|steps| - 1]);
      StepGranted(Run(Created(board), steps[..|steps| - 1]), steps[|steps| - 1]);
    }
  }
}
