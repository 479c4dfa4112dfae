/** What a resend press buys, wherever it lands. */
module DeliveryPresses {
  import opened Wrappers
  import opened ClipDelivery
  import opened DeliveryRow
  import opened DeliveryTruth
  import opened DeliveryPatience

  /******* How a pass ends, read off its script *******/

  /** The poll reaches an outcome message: the failure, no clips, or a summary, which it reaches with
      nothing owed or behind a heard count of the last attempt. */
  predicate MessageDue(d: Row, e: PassEnv) {
    var p := Sends(d.clips, e);
    && e.locale.None?
    && (|| d.job == JobFailed
        || d.clips == []
        || (p.escaped.None? && (p.pending == 0 || (e.attemptWrite.Stored? && Terminal(d.attempts)))))
  }

  function ThrownBy(d: Row, e: PassEnv): Option<string> {
    var p := Sends(d.clips, e);
    if e.locale.Some? then e.locale
    else if MessageDue(d, e) then (if e.summary.Confirmed? then None else Some(e.summary.message))
    else if p.escaped.Some? then p.escaped
    else if e.attemptWrite.Threw? then Some(e.attemptWrite.message)
    else None
  }

  lemma TriedThrows(d: Row, e: PassEnv)
    ensures Tried(d, e).threw == ThrownBy(d, e)
  {
  }

  /******* Where a row ends up pending *******/

  /** The row is pending when the try block is through without a confirmed message: it still was, or
      the last thing that happened to its status was a press. */
  predicate PendingAfterTry(d: Row, e: PassEnv) {
    || (MessageDue(d, e) && Pressed in e.gaps.beforeMessage)
    || (!(CountDue(d, e) && Terminal(d.attempts) && e.attemptWrite.Applied())
        && (|| d.status == PENDING
            || Pressed in e.gaps.beforeTurn
            || (CountDue(d, e) && Pressed in e.gaps.beforeAttempt)))
  }

  /** Which polls leave a row pending with no write owed. A row that owes a write is settled by the
      flush, and one whose outcome message is confirmed by the settle behind it, whenever the press
      lands. A poll that throws leaves it pending unless it retires it: for an unreachable chat, or by
      counting the last attempt, which only a press ahead of the notice survives. */
  predicate StaysPending(d: Row, e: PassEnv) {
    && d.owed.None?
    && match ThrownBy(d, e)
       case None => !MessageDue(d, e) && PendingAfterTry(d, e)
       case Some(m) =>
         && !IsPermanentTelegramError(m)
         && if Terminal(d.attempts) && e.catchWrite.Applied()
            then e.catchWrite.Stored? && Pressed in e.gaps.beforeNotice
            else Pressed in e.gaps.beforeCatch || PendingAfterTry(d, e)
  }

  predicate Open(d: Row) {
    d.owed.None? && d.status == PENDING
  }

  lemma ConcludeOpen(d: Row, m: Message, owed: OwedWrite, e: PassEnv)
    requires d.owed.None?
    ensures var r := Conclude(d, m, owed, e);
            && (r.threw.None? <==> e.summary.Confirmed?)
            && (r.threw.None? ==> !Open(r.row))
            && (r.threw.Some? ==>
                  && r.row.owed.None?
                  && (r.row.status == PENDING <==> d.status == PENDING || Pressed in e.gaps.beforeMessage))
  {
    hide Settle;
    var now := Interrupt(d, e.gaps.beforeMessage);
    var bare := RemoveBoard(Say(now, m));
    InterruptFrame(d, e.gaps.beforeMessage);
    InterruptFrame(bare, e.gaps.beforeSettle);
    SettleFrame(Interrupt(bare, e.gaps.beforeSettle), owed, e.settleWrite);
  }

  lemma TryOpen(d: Row, e: PassEnv)
    requires d.owed.None?
    ensures var a := Tried(d, e);
            if MessageDue(d, e) && e.summary.Confirmed? then !Open(a.row)
            else a.row.owed.None? && (a.row.status == PENDING <==> PendingAfterTry(d, e))
  {
    hide Conclude, AttemptFailed, Interrupt, Sends, InChat, Summary;
    var turn, seen := AtTurn(d, e), SeenOf(d);
    InterruptFrame(Note(d, Picked), e.gaps.beforeTurn);
    var sent := turn.(clips := Sends(d.clips, e).clips);
    var now := Interrupt(sent, e.gaps.beforeAttempt);
    var counted := AttemptFailed(now, d.attempts, e.attemptWrite);
    InterruptFrame(sent, e.gaps.beforeAttempt);
    AttemptFrame(now, d.attempts, e.attemptWrite);
    var m := Summary(InChat(d.clips, e), |d.clips|);
    var owed := if InChat(d.clips, e) < |d.clips| then OweFailed else OweDelivered;
    ConcludeOpen(turn, FailureNotice, OweFailureNotified, e);
    ConcludeOpen(turn, NoClips, OweDelivered, e);
    ConcludeOpen(sent, m, owed, e);
    ConcludeOpen(counted, m, owed, e);
  }

  lemma CatchOpen(d: Row, seen: Seen, message: string, e: PassEnv)
    requires d.owed.None?
    ensures Open(CatchBody(d, seen, message, e)) <==>
            && !IsPermanentTelegramError(message)
            && if Terminal(seen.attempts) && e.catchWrite.Applied()
               then e.catchWrite.Stored? && Pressed in e.gaps.beforeNotice
               else Pressed in e.gaps.beforeCatch || d.status == PENDING
  {
    hide Settle, AttemptFailed;
    var now := Interrupt(d, e.gaps.beforeCatch);
    InterruptFrame(d, e.gaps.beforeCatch);
    SettleFrame(now, OweFailed, e.settleWrite);
    AttemptFrame(now, seen.attempts, e.catchWrite);
    InterruptFrame(AttemptFailed(now, seen.attempts, e.catchWrite), e.gaps.beforeNotice);
  }

  /** For every row, script and placement of presses: the poll leaves the row pending, with nothing
      owed, exactly when StaysPending says so. A press that lands in any other poll was acknowledged
      and then thrown away. */
  lemma OpenAfterPassIff(d: Row, e: PassEnv)
    ensures Open(RowPass(d, e)) <==> StaysPending(d, e)
  {
    hide TryBody, CatchBody, FlushOwed;
    InterruptFrame(Note(d, Picked), e.gaps.beforeTurn);
    TriedThrows(d, e);
    if d.owed.Some? {
      FlushFrame(AtTurn(d, e), d.owed.value, e.settleWrite);
    } else {
      TryOpen(d, e);
      var a := Tried(d, e);
      if a.threw.Some? {
        CatchOpen(a.row, SeenOf(d), a.threw.value, e);
      }
    }
  }

  /** A row that is not pending after the poll is pickable all the same in one case: it was told of a
      failure and the job is done by now. Then the failure notice has renewed the budget. */
  predicate LeftTold(d: Row, e: PassEnv) {
    && e.settleWrite.Stored?
    && (|| d.owed == Some(OweFailureNotified)
        || (d.owed.None? && e.locale.None? && d.job == JobFailed && e.summary.Confirmed?))
  }

  lemma ToldAfterPassIff(d: Row, e: PassEnv)
    requires d.status == PENDING
    ensures var r := RowPass(d, e);
            && (r.owed.None? && r.status == FAILURE_NOTIFIED <==> LeftTold(d, e))
            && (LeftTold(d, e) ==> r.attempts == 0)
  {
    hide TryBody, CatchBody, FlushOwed;
    InterruptFrame(Note(d, Picked), e.gaps.beforeTurn);
    TriedThrows(d, e);
    if d.owed.Some? {
      FlushFrame(AtTurn(d, e), d.owed.value, e.settleWrite);
    } else {
      TryTold(d, e);
      var a := Tried(d, e);
      if a.threw.Some? {
        CatchTold(a.row, SeenOf(d), a.threw.value, e);
      }
    }
  }

  lemma ConcludeTold(d: Row, m: Message, owed: OwedWrite, e: PassEnv)
    requires d.status != FAILURE_NOTIFIED
    ensures var r := Conclude(d, m, owed, e);
            && (r.row.owed.None? && r.row.status == FAILURE_NOTIFIED <==>
                r.threw.None? && owed == OweFailureNotified && e.settleWrite.Stored?)
            && (r.threw.None? && owed == OweFailureNotified && e.settleWrite.Stored? ==> r.row.attempts == 0)
            && (r.threw.Some? ==> r.row.status != FAILURE_NOTIFIED)
  {
    hide Settle;
    var now := Interrupt(d, e.gaps.beforeMessage);
    var bare := RemoveBoard(Say(now, m));
    InterruptFrame(d, e.gaps.beforeMessage);
    InterruptFrame(bare, e.gaps.beforeSettle);
    SettleFrame(Interrupt(bare, e.gaps.beforeSettle), owed, e.settleWrite);
  }

  lemma TryTold(d: Row, e: PassEnv)
    requires d.owed.None? && d.status == PENDING
    ensures var a := Tried(d, e);
            && (a.row.owed.None? && a.row.status == FAILURE_NOTIFIED <==> LeftTold(d, e))
            && (LeftTold(d, e) ==> a.threw.None? && a.row.attempts == 0)
            && (a.threw.Some? ==> a.row.status != FAILURE_NOTIFIED)
  {
    hide Conclude, AttemptFailed, Interrupt, Sends, InChat, Summary;
    var turn := AtTurn(d, e);
    InterruptFrame(Note(d, Picked), e.gaps.beforeTurn);
    var sent := turn.(clips := Sends(d.clips, e).clips);
    var now := Interrupt(sent, e.gaps.beforeAttempt);
    var counted := AttemptFailed(now, d.attempts, e.attemptWrite);
    InterruptFrame(sent, e.gaps.beforeAttempt);
    AttemptFrame(now, d.attempts, e.attemptWrite);
    var m := Summary(InChat(d.clips, e), |d.clips|);
    var owed := if InChat(d.clips, e) < |d.clips| then OweFailed else OweDelivered;
    TriedThrows(d, e);
    ConcludeTold(turn, FailureNotice, OweFailureNotified, e);
    ConcludeTold(turn, NoClips, OweDelivered, e);
    ConcludeTold(sent, m, owed, e);
    ConcludeTold(counted, m, owed, e);
  }

  lemma CatchTold(d: Row, seen: Seen, message: string, e: PassEnv)
    requires d.status != FAILURE_NOTIFIED
    ensures CatchBody(d, seen, message, e).status != FAILURE_NOTIFIED
  {
    hide Settle, AttemptFailed;
    var now := Interrupt(d, e.gaps.beforeCatch);
    InterruptFrame(d, e.gaps.beforeCatch);
    SettleFrame(now, OweFailed, e.settleWrite);
    AttemptFrame(now, seen.attempts, e.catchWrite);
    InterruptFrame(AttemptFailed(now, seen.attempts, e.catchWrite), e.gaps.beforeNotice);
  }

  /******* The two common placements *******/

  /** A press between two polls opens the row with its whole budget if and only if no write was owed. If
      one was, the next pickup only flushes it, the clips stay as they are, and the press is gone. */
  lemma PressBetweenPolls(d: Row, e: PassEnv)
    requires d.job == JobDone && d.finished
    ensures Pickable(Rearm(d)) && Rearm(d).attempts == 0
    ensures Open(Rearm(d)) <==> d.owed.None?
    ensures RowPass(Rearm(d), e).clips
            == if d.owed.None? && e.locale.None? && d.clips != [] then Sends(d.clips, e).clips else d.clips
    ensures d.owed.Some? ==> !Open(RowPass(Rearm(d), e))
    ensures d.owed in {Some(OweFailed), Some(OweDelivered)} && e.settleWrite.Stored? ==> !Pickable(RowPass(Rearm(d), e))
  {
    hide RowPass;
    PassClips(Rearm(d), e);
    OpenAfterPassIff(Rearm(d), e);
    if d.owed.Some? && e.settleWrite.Stored? {
      FlushEnds(Rearm(d), e);
    }
  }

  lemma FlushEnds(d: Row, e: PassEnv)
    requires d.owed.Some? && e.settleWrite.Stored?
    ensures RowPass(d, e).status == StatusOf(d.owed.value)
  {
    hide FlushOwed;
    InterruptFrame(Note(d, Picked), e.gaps.beforeTurn);
    FlushFrame(AtTurn(d, e), d.owed.value, e.settleWrite);
  }

  /** The poll decides by the count its query read. A press that lands before the catch block counts
      reopens the row for good unless that poll was spending the last attempt: then the row is retired
      all the same. */
  lemma PressBeforeCatchSurvivesUnlessLast(d: Row, e: PassEnv)
    requires d.owed.None? && Pressed in e.gaps.beforeCatch && Pressed !in e.gaps.beforeNotice
    requires ThrownBy(d, e).Some? && !IsPermanentTelegramError(ThrownBy(d, e).value)
    ensures Open(RowPass(d, e)) <==> !(Terminal(d.attempts) && e.catchWrite.Applied())
  {
    hide RowPass;
    OpenAfterPassIff(d, e);
  }
}
