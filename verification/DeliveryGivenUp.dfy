/** The given-up copy ("all clips are ready, but I could not send them"): when a poll sends it, and
    when it is sent over a chat that has clips in it. */
module DeliveryGivenUp {
  import opened Wrappers
  import opened ClipDelivery
  import opened DeliveryRow
  import opened DeliveryTruth
  import opened DeliveryPresses
  import opened DeliveryMessages

  /** Given-up notices in a log. */
  function GivenUps(log: seq<Event>): nat {
    if log == [] then 0 else GivenUps(log[..|log| - 1]) + if IsGivenUp(log[|log| - 1]) then 1 else 0
  }

  predicate IsGivenUp(e: Event) {
    e.Said? && e.message.GivenUp?
  }

  lemma {:induction false} GivenUpsShown(log: seq<Event>)
    ensures GivenUps(Shown(log)) == GivenUps(log)
  {
    if log != [] {
      var front, last := log[..|log| - 1], log[|log| - 1];
      GivenUpsShown(front);
      GivenUpsAppend(Shown(front), last);
      assert Shown(front) + [] == Shown(front);
    }
  }

  lemma GivenUpsAppend(log: seq<Event>, e: Event)
    ensures GivenUps(log + [e]) == GivenUps(log) + if IsGivenUp(e) then 1 else 0
  {
    assert (log + [e])[..|log|] == log;
  }

  lemma GivenUpsWithBoard(log: seq<Event>, m: Message, board: bool)
    ensures GivenUps(log + WithBoard(m, board)) == GivenUps(log) + if m.GivenUp? then 1 else 0
  {
    hide GivenUps;
    GivenUpsAppend(log, Said(m));
    GivenUpsAppend(log + [Said(m)], BoardRemoval);
    assert log + [Said(m)] + [BoardRemoval] == log + [Said(m), BoardRemoval];
    assert WithBoard(m, board) == if board then [Said(m), BoardRemoval] else [Said(m)];
  }

  /** The summary was confirmed and the pass had counted nothing in the chat. */
  predicate SummedUpEmpty(d: Row, e: PassEnv) {
    && d.job != JobFailed && d.clips != []
    && MessageDue(d, e) && e.summary.Confirmed? && InChat(d.clips, e) == 0
  }

  /** A poll sends the given-up copy once if it says so in its summary or in its catch block, and
      otherwise not at all. */
  lemma GivenUpIff(d: Row, e: PassEnv)
    ensures GivenUps(RowPass(d, e).log) == GivenUps(d.log)
              + if d.owed.None? && (CaughtOnLastAttempt(d, e) || SummedUpEmpty(d, e)) then 1 else 0
  {
    hide RowPass, Sends, InChat, WithBoard, GivenUps, Shown;
    PassShows(d, e);
    GivenUpsShown(d.log);
    GivenUpsShown(RowPass(d, e).log);
    GivenUpsWithBoard(Shown(d.log), Word(d, e), d.board);
    GivenUpsAppend(Shown(d.log), Said(GivenUp(|d.clips|)));
    assert Shown(d.log) + [] == Shown(d.log);
  }

  /** Nothing of the job is in the chat. */
  predicate ChatIsEmpty(clips: seq<Clip>) {
    forall i :: 0 <= i < |clips| ==> Copies(clips[i].sends) == 0
  }

  /** A clip is in the chat and no row says so: its upload landed unanswered, or its file id was lost. */
  predicate Unnoticed(c: Clip) {
    Unanswered(c.sends) + Forgotten(c.sends) > Vanished(c.sends)
  }

  /** With recorded clips in the chat the poll sends the copy in two cases: the try block threw on the
      last attempt, or what it had counted was nothing because each file id it recorded was stored by a
      write that threw. */
  lemma GivenUpDespiteClips(d: Row, e: PassEnv)
    requires d.finished && d.job != JobFailed && d.clips != [] && d.owed.None?
    requires CountRecorded(RowPass(d, e).clips) > 0
    ensures GivenUps(RowPass(d, e).log) == GivenUps(d.log)
              + if CaughtOnLastAttempt(d, e) || (SummedUpEmpty(d, e) && Sends(d.clips, e).unheard > 0) then 1 else 0
  {
    hide RowPass, Sends, CaughtOnLastAttempt;
    GivenUpIff(d, e);
    PassClips(d, e);
    if SummedUpEmpty(d, e) {
      SummaryIsExact(d.clips, e);
    }
  }

  /** A summary that says it speaks the truth if and only if no file id of its pass was stored by a write
      that threw and no earlier or present upload reached the chat unnoticed. */
  lemma SummaryGivesUpRightlyIff(d: Row, e: PassEnv)
    requires d.finished && ClipsInv(d.clips) && d.owed.None? && SummedUpEmpty(d, e)
    ensures var after := RowPass(d, e).clips;
            ChatIsEmpty(after) <==>
            Sends(d.clips, e).unheard == 0 && forall i :: 0 <= i < |after| ==> !Unnoticed(after[i])
  {
    hide RowPass, Copies, Unanswered, Vanished, Forgotten;
    PassClips(d, e);
    SummaryIsExact(d.clips, e);
    PassKeepsClips(d.clips, e.clips, e.maxBytes);
    var after := RowPass(d, e).clips;
    NoneRecordedByCount(after);
    forall i | 0 <= i < |after|
      ensures Copies(after[i].sends) == 0 <==> after[i].fileId.None? && !Unnoticed(after[i])
    {
      CopiesAreBounded(after[i]);
    }
    assert ChatIsEmpty(after) <==> forall i :: 0 <= i < |after| ==> Copies(after[i].sends) == 0;
  }

  lemma {:induction false} NoneRecordedByCount(clips: seq<Clip>)
    ensures CountRecorded(clips) == 0 <==> forall i :: 0 <= i < |clips| ==> clips[i].fileId.None?
  {
    if clips != [] {
      var init := clips[..|clips| - 1];
      NoneRecordedByCount(init);
      assert forall i :: 0 <= i < |init| ==> init[i] == clips[i];
    }
  }
}
