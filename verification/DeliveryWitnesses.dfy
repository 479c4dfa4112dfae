/** Runs of a delivery row, from its creation, in which the promises of the delivery code fail. Each of
    them is one instance of a condition proved elsewhere for all runs. */
module DeliveryWitnesses {
  import opened Wrappers
  import opened ClipDelivery
  import opened DeliveryRow
  import opened DeliverySafety
  import opened DeliveryOpenings
  import opened DeliveryPatience
  import opened DeliveryPresses
  import opened DeliveryMessages
  import opened DeliveryGivenUp

  const QUIET := Gaps([], [], [], [], [], [])

  /** A poll in which storage answers nothing and everything else works. */
  const STUCK := PassEnv(None, [], 1000, Stored, Reply.Confirmed, Stored, Stored, Reply.Confirmed, QUIET)

  /** A poll whose locale cannot be read. */
  const DOWN := STUCK.(locale := Some(""))

  const SENT := ClipEnv(Measured(Some(10)), Upload.Confirmed(Some("f")), Stored)

  const A := Clip("a", None, None, [])
  const B := Clip("b", None, None, [])
  const A_SENT := Clip("a", Some("f"), None, [SendConfirmed(Stored)])
  const B_SENT := Clip("b", Some("f"), None, [SendConfirmed(Stored)])

  lemma InterruptOne(d: Row, i: Interruption)
    ensures Interrupt(d, [i]) == Land(d, i)
  {
    assert [i][..0] == [];
  }

  /** A finished job with two clips, the first of them in the chat. */
  predicate Half(d: Row, status: Status, attempts: nat) {
    && d.status == status && d.attempts == attempts && d.job == JobDone && d.finished
    && d.clips == [A_SENT, B] && !d.board && d.owed.None?
  }

  lemma EmptyIsNotPermanent()
    ensures !IsPermanentTelegramError("")
  {
  }

  /******* What the scripts do to the clips *******/

  lemma StuckHalf()
    ensures Sends([A_SENT, B], STUCK) == Pass([A_SENT, B], 0, 1, 0, 0, None)
    ensures InChat([A_SENT, B], STUCK) == 1
  {
    var clips := [A_SENT, B];
    assert DeliverPrefix(clips, [], 1000, 1) == Pass(clips, 0, 0, 0, 0, None);
    assert DeliverPrefix(clips, [], 1000, 2) == Pass(clips, 0, 1, 0, 0, None);
    RecordedHalf();
  }

  lemma RecordedHalf()
    ensures CountRecorded([A_SENT, B]) == 1
  {
    assert [A_SENT, B][..1] == [A_SENT] && [A_SENT][..0] == [];
  }

  const FIRST := STUCK.(clips := [SENT])

  lemma FirstSends()
    ensures Sends([A, B], FIRST) == Pass([A_SENT, B], 1, 1, 0, 0, None)
  {
    var clips := [A, B];
    assert DeliverPrefix(clips, [SENT], 1000, 1) == Pass([A_SENT, B], 1, 0, 0, 0, None) by {
      assert clips[0 := A_SENT] == [A_SENT, B];
      assert [] + [SendConfirmed(Stored)] == [SendConfirmed(Stored)];
    }
    assert DeliverPrefix(clips, [SENT], 1000, 2) == Pass([A_SENT, B], 1, 1, 0, 0, None) by {
      assert [A_SENT, B][1 := B] == [A_SENT, B];
    }
  }

  const SECOND := STUCK.(clips := [SENT, SENT])

  lemma SecondSends()
    ensures Sends([A_SENT, B], SECOND) == Pass([A_SENT, B_SENT], 1, 0, 0, 0, None)
    ensures InChat([A_SENT, B], SECOND) == 2
  {
    var clips := [A_SENT, B];
    assert DeliverPrefix(clips, [SENT, SENT], 1000, 1) == Pass(clips, 0, 0, 0, 0, None);
    assert DeliverPrefix(clips, [SENT, SENT], 1000, 2) == Pass([A_SENT, B_SENT], 1, 0, 0, 0, None) by {
      assert clips[1 := B_SENT] == [A_SENT, B_SENT];
      assert [] + [SendConfirmed(Stored)] == [SendConfirmed(Stored)];
    }
    RecordedHalf();
  }

  /******* Single passes *******/

  lemma FirstPass(d: Row)
    requires d.status == PENDING && d.attempts == 0 && d.job == JobDone && d.finished && d.clips == [A, B]
    requires !d.board && d.owed.None?
    ensures Half(RowPass(d, FIRST), PENDING, 1)
  {
    FirstSends();
  }

  lemma StuckPass(d: Row)
    requires Half(d, PENDING, d.attempts) && !Terminal(d.attempts)
    ensures Half(RowPass(d, STUCK), PENDING, d.attempts + 1)
  {
    StuckHalf();
  }

  lemma DownPass(d: Row)
    requires d.owed.None? && !Terminal(d.attempts)
    ensures RowPass(d, DOWN) == d.(attempts := d.attempts + 1, log := d.log + [Picked, Counted])
  {
    EmptyIsNotPermanent();
    assert d.log + [Picked] + [Counted] == d.log + [Picked, Counted];
  }

  /** The poll that spends the last attempt with one clip still owed. */
  lemma LastStuckPass(d: Row)
    requires Half(d, PENDING, 11)
    ensures Half(RowPass(d, STUCK), FAILED, 12)
    ensures RowPass(d, STUCK).log == d.log + [Picked, Counted, Said(Partial(1, 2)), Wrote(FAILED)]
  {
    StuckHalf();
    assert d.log + [Picked] + [Counted] + [Said(Partial(1, 2))] + [Wrote(FAILED)]
        == d.log + [Picked, Counted, Said(Partial(1, 2)), Wrote(FAILED)];
  }

  const PRESSED_LATE := STUCK.(gaps := QUIET.(beforeSettle := [Pressed]))

  /** The same poll, with the button under its partial summary pressed before the settle. */
  lemma LastStuckPassPressed(d: Row)
    requires Half(d, PENDING, 11)
    ensures Half(RowPass(d, PRESSED_LATE), FAILED, 0)
    ensures RowPass(d, PRESSED_LATE).log
            == d.log + [Picked, Counted, Said(Partial(1, 2)), Opened(ByPress, false), Wrote(FAILED)]
  {
    StuckHalf();
    assert Sends(d.clips, PRESSED_LATE) == Sends(d.clips, STUCK);
    var said := d.(status := FAILED, attempts := 12, log := d.log + [Picked] + [Counted] + [Said(Partial(1, 2))]);
    InterruptOne(said, Pressed);
    assert d.log + [Picked] + [Counted] + [Said(Partial(1, 2))] + [Opened(ByPress, false)] + [Wrote(FAILED)]
        == d.log + [Picked, Counted, Said(Partial(1, 2)), Opened(ByPress, false), Wrote(FAILED)];
  }

  /** The last attempt, spent by a poll that throws, with something landing ahead of its count or of its
      notice. */
  lemma LastDownPass(d: Row)
    requires d.owed.None? && Terminal(d.attempts) && |d.clips| == 2
    ensures RowPass(d, DOWN)
            == d.(status := FAILED, attempts := d.attempts + 1, log := d.log + [Picked, Counted, Said(GivenUp(2))])
  {
    EmptyIsNotPermanent();
    assert d.log + [Picked] + [Counted] + [Said(GivenUp(2))] == d.log + [Picked, Counted, Said(GivenUp(2))];
  }

  const DOWN_PRESSED_FIRST := DOWN.(gaps := QUIET.(beforeCatch := [Pressed]))

  lemma LastDownPassPressedFirst(d: Row)
    requires Half(d, PENDING, 11)
    ensures RowPass(d, DOWN_PRESSED_FIRST)
            == d.(status := FAILED, attempts := 1,
                  log := d.log + [Picked, Opened(ByPress, false), Counted, Said(GivenUp(2))])
  {
    EmptyIsNotPermanent();
    InterruptOne(Note(d, Picked), Pressed);
    assert d.log + [Picked] + [Opened(ByPress, false)] + [Counted] + [Said(GivenUp(2))]
        == d.log + [Picked, Opened(ByPress, false), Counted, Said(GivenUp(2))];
  }

  const DOWN_PRESSED_LATE := DOWN.(gaps := QUIET.(beforeNotice := [Pressed]))

  lemma LastDownPassPressedLate(d: Row)
    requires Half(d, PENDING, 11)
    ensures RowPass(d, DOWN_PRESSED_LATE)
            == d.(attempts := 0, log := d.log + [Picked, Counted, Opened(ByPress, false), Said(GivenUp(2))])
  {
    EmptyIsNotPermanent();
    var counted := d.(status := FAILED, attempts := 12, log := d.log + [Picked] + [Counted]);
    InterruptOne(counted, Pressed);
    assert d.log + [Picked] + [Counted] + [Opened(ByPress, false)] + [Said(GivenUp(2))]
        == d.log + [Picked, Counted, Opened(ByPress, false), Said(GivenUp(2))];
  }

  lemma DonePass(d: Row)
    requires Half(d, PENDING, 0)
    ensures RowPass(d, SECOND).log == d.log + [Picked, Said(Done(2)), Wrote(DELIVERED)]
  {
    SecondSends();
    assert d.log + [Picked] + [Said(Done(2))] + [Wrote(DELIVERED)] == d.log + [Picked, Said(Done(2)), Wrote(DELIVERED)];
  }

  /******* Runs *******/

  lemma MovedFirst(job: JobStatus, clips: seq<Clip>)
    ensures Run(Created(false), [JobMoves(job, clips)]) == MoveJob(Created(false), job, clips)
  {
    hide MoveJob;
    RunOne(Created(false), [], JobMoves(job, clips));
    assert [] + [JobMoves(job, clips)] == [JobMoves(job, clips)];
  }

  lemma PollNext(steps: seq<Step>, e: PassEnv)
    requires Pickable(Run(Created(false), steps))
    ensures Run(Created(false), steps + [Poll(e)]) == RowPass(Run(Created(false), steps), e)
  {
    hide RowPass;
    RunOne(Created(false), steps, Poll(e));
  }

  lemma FirstHalf() returns (steps: seq<Step>)
    ensures LegalRun(steps) && Half(Run(Created(false), steps), PENDING, 1)
  {
    hide RowPass, Run, Half;
    steps := [JobMoves(JobDone, [A, B])];
    MovedFirst(JobDone, [A, B]);
    FirstPass(MoveJob(Created(false), JobDone, [A, B]));
    PollNext(steps, FIRST);
    steps := steps + [Poll(FIRST)];
  }

  /** k polls that leave the second clip owed. */
  lemma {:induction false} HalfSent(k: nat) returns (steps: seq<Step>)
    requires 1 <= k < MAX_ATTEMPTS
    ensures LegalRun(steps) && Half(Run(Created(false), steps), PENDING, k)
  {
    hide RowPass;
    if k == 1 {
      steps := FirstHalf();
    } else {
      var before := HalfSent(k - 1);
      StuckPass(Run(Created(false), before));
      RunOne(Created(false), before, Poll(STUCK));
      steps := before + [Poll(STUCK)];
    }
  }

  /** The partial summary was said, and its button pressed between two polls. */
  lemma PartialThenPress() returns (steps: seq<Step>)
    ensures LegalRun(steps) && Half(Run(Created(false), steps), PENDING, 0)
  {
    hide RowPass;
    var before := HalfSent(11);
    var d := Run(Created(false), before);
    LastStuckPass(d);
    RunOne(Created(false), before, Poll(STUCK));
    RunOne(Created(false), before + [Poll(STUCK)], ResendPress(true, Stored));
    steps := before + [Poll(STUCK)] + [ResendPress(true, Stored)];
  }

  /** And then k polls that could not read the locale. */
  lemma {:induction false} PressThenDown(k: nat) returns (steps: seq<Step>)
    requires k < MAX_ATTEMPTS
    ensures LegalRun(steps) && Half(Run(Created(false), steps), PENDING, k)
  {
    hide RowPass;
    if k == 0 {
      steps := PartialThenPress();
    } else {
      var before := PressThenDown(k - 1);
      DownPass(Run(Created(false), before));
      RunOne(Created(false), before, Poll(DOWN));
      steps := before + [Poll(DOWN)];
    }
  }

  predicate NoPress(s: Step) {
    match s
    case Poll(_) => true
    case ResendPress(ownRow, w) => !(ownRow && w.Applied())
    case JobMoves(_, _) => true
  }

  /** Nothing but another press ever moves a retired row again. */
  lemma {:induction false} RetiredStays(d: Row, more: seq<Step>)
    requires d.status == FAILED && d.owed.None? && d.finished
    requires forall i :: 0 <= i < |more| ==> NoPress(more[i])
    ensures var r := Run(d, more);
            r.status == FAILED && r.owed.None? && r.finished && r.clips == d.clips && r.log == d.log
  {
    hide RowPass;
    if more != [] {
      RetiredStays(d, more[..|more| - 1]);
    }
  }

  /** Whatever the polls meet and the workers do, without another press no clip is ever sent again. */
  ghost predicate NeverSendsWithoutPress(d: Row) {
    forall more :: (forall i :: 0 <= i < |more| ==> NoPress(more[i])) ==> Run(d, more).clips == d.clips
  }

  lemma RetiredNeverSends(d: Row)
    requires d.status == FAILED && d.owed.None? && d.finished
    ensures NeverSendsWithoutPress(d)
  {
    forall more | forall i :: 0 <= i < |more| ==> NoPress(more[i])
      ensures Run(d, more).clips == d.clips
    {
      RetiredStays(d, more);
    }
  }

  predicate EndsWith(log: seq<Event>, last: seq<Event>) {
    |last| <= |log| && log[|log| - |last|..] == last
  }

  lemma EndsWithAppended(log: seq<Event>, last: seq<Event>)
    ensures EndsWith(log + last, last)
  {
  }

  /** The lost press: the partial summary is confirmed with a clip still owed, the user presses the
      button under it, the press reaches the table, and the settle of the same poll retires the row
      over it. No continuation without another press ever sends the clip. */
  lemma PressIsLost() returns (steps: seq<Step>)
    ensures LegalRun(steps)
    ensures var d := Run(Created(false), steps);
            && Half(d, FAILED, 0) && Owed(d.clips[1]) && !Pickable(d)
            && EndsWith(d.log, [Said(Partial(1, 2)), Opened(ByPress, false), Wrote(FAILED)])
            && NeverSendsWithoutPress(d)
  {
    hide RowPass, EndsWith, NeverSendsWithoutPress;
    var before := HalfSent(11);
    var d := Run(Created(false), before);
    LastStuckPassPressed(d);
    RunOne(Created(false), before, Poll(PRESSED_LATE));
    steps := before + [Poll(PRESSED_LATE)];
    assert LegalGap([Pressed]);
    var three := [Said(Partial(1, 2)), Opened(ByPress, false), Wrote(FAILED)];
    EndsWithAppended(d.log + [Picked, Counted], three);
    assert d.log + [Picked, Counted] + three
        == d.log + [Picked, Counted, Said(Partial(1, 2)), Opened(ByPress, false), Wrote(FAILED)];
    RetiredNeverSends(Run(Created(false), steps));
  }

  const UNSETTLED := STUCK.(settleWrite := Threw("", false))

  lemma LastStuckPassUnsettled(d: Row)
    requires Half(d, PENDING, 11)
    ensures var r := RowPass(d, UNSETTLED);
            r.owed == Some(OweFailed) && Half(r.(owed := None), FAILED, 12)
  {
    StuckHalf();
    assert Sends(d.clips, UNSETTLED) == Sends(d.clips, STUCK);
  }

  lemma OwedFlush(d: Row)
    requires d.owed == Some(OweFailed) && Half(d.(owed := None), PENDING, 0)
    ensures Half(RowPass(d, STUCK), FAILED, 0)
  {
  }

  lemma PartialOwed() returns (steps: seq<Step>)
    ensures LegalRun(steps) && |steps| > 0
    ensures var d := Run(Created(false), steps);
            d.owed == Some(OweFailed) && Half(d.(owed := None), FAILED, 12)
  {
    hide RowPass;
    var before := HalfSent(11);
    LastStuckPassUnsettled(Run(Created(false), before));
    RunOne(Created(false), before, Poll(UNSETTLED));
    steps := before + [Poll(UNSETTLED)];
  }

  /** The other lost press: the settle behind the partial summary fails, the press lands between that
      poll and the next, and the next one writes what was owed over it. */
  lemma OwedPressIsLost() returns (steps: seq<Step>)
    ensures LegalRun(steps) && |steps| > 2 && steps[|steps| - 2] == ResendPress(true, Stored)
    ensures var d := Run(Created(false), steps);
            && Half(d, FAILED, 0) && Owed(d.clips[1]) && !Pickable(d)
            && NeverSendsWithoutPress(d)
  {
    hide RowPass, NeverSendsWithoutPress;
    var before := PartialOwed();
    RunOne(Created(false), before, ResendPress(true, Stored));
    OwedFlush(Run(Created(false), before + [ResendPress(true, Stored)]));
    RunOne(Created(false), before + [ResendPress(true, Stored)], Poll(STUCK));
    steps := before + [ResendPress(true, Stored)] + [Poll(STUCK)];
    RetiredNeverSends(Run(Created(false), steps));
  }

  /** Said "given up" with a clip in the chat. */
  lemma GivenUpWithClipsInChat() returns (steps: seq<Step>)
    ensures LegalRun(steps)
    ensures var d := Run(Created(false), steps);
            && Half(d, FAILED, 12) && CountRecorded(d.clips) == 1
            && EndsWith(d.log, [Said(GivenUp(2))])
  {
    hide RowPass;
    var before := PressThenDown(11);
    LastDownPass(Run(Created(false), before));
    RunOne(Created(false), before, Poll(DOWN));
    RecordedHalf();
    steps := before + [Poll(DOWN)];
  }

  const ID_LOST := STUCK.(clips := [SENT.(write := Threw("", true))])

  const A_UNHEARD := Clip("a", Some("f"), None, [SendConfirmed(Threw("", true))])

  /** A finished job with one clip, which nobody could send so far. */
  predicate Alone(d: Row, attempts: nat) {
    && d.status == PENDING && d.attempts == attempts && d.job == JobDone && d.finished
    && d.clips == [A] && !d.board && d.owed.None?
  }

  lemma UnheardSends()
    ensures Sends([A], ID_LOST) == Pass([A_UNHEARD], 0, 1, 0, 1, None)
    ensures InChat([A], ID_LOST) == 0
  {
    var clips := [A];
    assert DeliverPrefix(clips, ID_LOST.clips, 1000, 0) == Pass(clips, 0, 0, 0, 0, None);
    assert [] + [SendConfirmed(Threw("", true))] == [SendConfirmed(Threw("", true))];
    assert clips[0 := A_UNHEARD] == [A_UNHEARD];
    assert clips[..0] == [];
  }

  /** The last attempt: the clip arrives, the write of its file id is not heard, everything else works. */
  lemma IdLostPass(d: Row)
    requires Alone(d, 11)
    ensures RowPass(d, ID_LOST)
            == d.(status := FAILED, attempts := 12, clips := [A_UNHEARD],
                  log := d.log + [Picked, Counted, Said(GivenUp(1)), Wrote(FAILED)])
    ensures !CaughtOnLastAttempt(d, ID_LOST)
  {
    UnheardSends();
    assert d.log + [Picked] + [Counted] + [Said(GivenUp(1))] + [Wrote(FAILED)]
        == d.log + [Picked, Counted, Said(GivenUp(1)), Wrote(FAILED)];
  }

  lemma {:induction false} AloneThenDown(k: nat) returns (steps: seq<Step>)
    requires k < MAX_ATTEMPTS
    ensures LegalRun(steps) && Alone(Run(Created(false), steps), k)
  {
    hide RowPass, Run;
    if k == 0 {
      steps := [JobMoves(JobDone, [A])];
      MovedFirst(JobDone, [A]);
    } else {
      var before := AloneThenDown(k - 1);
      DownPass(Run(Created(false), before));
      PollNext(before, DOWN);
      steps := before + [Poll(DOWN)];
    }
  }

  /** Said "given up" by a summary, right behind a clip that arrived and is recorded. No button comes with
      it, and the try block did not throw. */
  lemma GivenUpBehindItsOwnClip() returns (steps: seq<Step>, e: PassEnv)
    ensures LegalRun(steps + [Poll(e)]) && !CaughtOnLastAttempt(Run(Created(false), steps), e)
    ensures var d := Run(Created(false), steps + [Poll(e)]);
            && d.status == FAILED && d.owed.None? && CountRecorded(d.clips) == 1 && Copies(d.clips[0].sends) == 1
            && EndsWith(d.log, [Counted, Said(GivenUp(1)), Wrote(FAILED)])
  {
    hide RowPass, Run, CaughtOnLastAttempt, EndsWith;
    steps := AloneThenDown(11);
    e := ID_LOST;
    var d := Run(Created(false), steps);
    IdLostPass(d);
    PollNext(steps, e);
    OneCopy();
    var three := [Counted, Said(GivenUp(1)), Wrote(FAILED)];
    EndsWithAppended(d.log + [Picked], three);
    assert d.log + [Picked] + three == d.log + [Picked, Counted, Said(GivenUp(1)), Wrote(FAILED)];
  }

  lemma OneCopy()
    ensures CountRecorded([A_UNHEARD]) == 1 && Copies(A_UNHEARD.sends) == 1
  {
    assert [A_UNHEARD][..0] == [] && A_UNHEARD.sends[..0] == [];
  }

  const SECOND_ID_LOST := STUCK.(clips := [SENT, SENT.(write := Threw("", true))])

  const B_UNHEARD := Clip("b", Some("f"), None, [SendConfirmed(Threw("", true))])

  lemma SecondUnheardSends()
    ensures Sends([A_SENT, B], SECOND_ID_LOST) == Pass([A_SENT, B_UNHEARD], 0, 1, 0, 1, None)
    ensures InChat([A_SENT, B], SECOND_ID_LOST) == 1
  {
    var clips := [A_SENT, B];
    assert DeliverPrefix(clips, SECOND_ID_LOST.clips, 1000, 1) == Pass(clips, 0, 0, 0, 0, None);
    assert DeliverPrefix(clips, SECOND_ID_LOST.clips, 1000, 2) == Pass([A_SENT, B_UNHEARD], 0, 1, 0, 1, None) by {
      assert clips[1 := B_UNHEARD] == [A_SENT, B_UNHEARD];
      assert [] + [SendConfirmed(Threw("", true))] == [SendConfirmed(Threw("", true))];
    }
    RecordedHalf();
  }

  lemma SecondIdLostPass(d: Row)
    requires Half(d, PENDING, 11)
    ensures var r := RowPass(d, SECOND_ID_LOST);
            r.clips == [A_SENT, B_UNHEARD] && r.log == d.log + [Picked, Counted, Said(Partial(1, 2)), Wrote(FAILED)]
  {
    SecondUnheardSends();
    assert d.log + [Picked] + [Counted] + [Said(Partial(1, 2))] + [Wrote(FAILED)]
        == d.log + [Picked, Counted, Said(Partial(1, 2)), Wrote(FAILED)];
  }

  /** A partial summary names one clip of two, and both are in the chat and recorded. */
  lemma PartialNamesTooFew() returns (steps: seq<Step>)
    ensures LegalRun(steps)
    ensures var d := Run(Created(false), steps);
            CountRecorded(d.clips) == 2 && EndsWith(d.log, [Said(Partial(1, 2)), Wrote(FAILED)])
  {
    hide RowPass, Run, EndsWith;
    var before := HalfSent(11);
    var d := Run(Created(false), before);
    SecondIdLostPass(d);
    PollNext(before, SECOND_ID_LOST);
    steps := before + [Poll(SECOND_ID_LOST)];
    assert [A_SENT, B_UNHEARD][..1] == [A_SENT] && [A_SENT][..0] == [];
    EndsWithAppended(d.log + [Picked, Counted], [Said(Partial(1, 2)), Wrote(FAILED)]);
    assert d.log + [Picked, Counted] + [Said(Partial(1, 2)), Wrote(FAILED)]
        == d.log + [Picked, Counted, Said(Partial(1, 2)), Wrote(FAILED)];
  }

  /** Pressed before the last count, and retired with one attempt on the new budget. */
  lemma PressRetiredWithTheLastAttempt() returns (steps: seq<Step>)
    ensures LegalRun(steps)
    ensures var d := Run(Created(false), steps);
            && Half(d, FAILED, 1) && Owed(d.clips[1])
            && EndsWith(d.log, [Opened(ByPress, false), Counted, Said(GivenUp(2))])
  {
    hide RowPass;
    var before := PressThenDown(11);
    LastDownPassPressedFirst(Run(Created(false), before));
    RunOne(Created(false), before, Poll(DOWN_PRESSED_FIRST));
    assert LegalGap([Pressed]);
    steps := before + [Poll(DOWN_PRESSED_FIRST)];
  }

  /** A partial summary, its button, eleven failing polls, a twelfth with a press ahead of its notice,
      then a poll that succeeds: the chat is told "given up" and then "done" with no opening between. */
  lemma TwoMessagesOneOpening() returns (steps: seq<Step>)
    ensures LegalRun(steps)
    ensures !Alternates(Run(Created(false), steps).log)
  {
    hide RowPass;
    var before := PressThenDown(11);
    var d := Run(Created(false), before);
    LastDownPassPressedLate(d);
    RunOne(Created(false), before, Poll(DOWN_PRESSED_LATE));
    var d1 := Run(Created(false), before + [Poll(DOWN_PRESSED_LATE)]);
    DonePass(d1);
    RunOne(Created(false), before + [Poll(DOWN_PRESSED_LATE)], Poll(SECOND));
    assert LegalGap([Pressed]);
    steps := before + [Poll(DOWN_PRESSED_LATE)] + [Poll(SECOND)];
    var log := d.log + [Picked, Counted, Opened(ByPress, false)];
    assert Run(Created(false), steps).log == log + [Said(GivenUp(2)), Picked, Said(Done(2)), Wrote(DELIVERED)];
    TwoMessagesInARow(log, GivenUp(2), Done(2), Wrote(DELIVERED));
  }

  lemma TwoMessagesInARow(log: seq<Event>, m1: Message, m2: Message, last: Event)
    ensures !Alternates(log + [Said(m1), Picked, Said(m2), last])
  {
    var all := log + [Said(m1), Picked, Said(m2), last];
    var before := all[..|log| + 2];
    assert before[..|before| - 1] == log + [Said(m1)];
    assert SpokenSinceOpened(before) && all[|log| + 2].Said?;
  }

  /******* The budget *******/

  const COUNT_UNHEARD := STUCK.(clips := [SENT], attemptWrite := Threw("", true))

  /** One pickup, two attempts: the counting write reaches the table and throws, and the catch block
      counts again. */
  lemma TwoAttemptsForOnePickup() returns (steps: seq<Step>)
    ensures LegalRun(steps)
    ensures var d := Run(Created(false), steps);
            TalliesOf(d).pickups == 1 && d.attempts == 2
  {
    hide RowPass;
    var d0 := Created(false);
    var d1 := MoveJob(d0, JobDone, [A, B]);
    steps := [JobMoves(JobDone, [A, B])];
    MovedFirst(JobDone, [A, B]);
    UnheardPass(d1);
    PollNext(steps, COUNT_UNHEARD);
    steps := steps + [Poll(COUNT_UNHEARD)];
    var r1 := Note(d0, Picked);
    var r2 := Note(r1, Counted);
    var r3 := Note(r2, StatusWriteFailed);
    TalliesNote(d0, Picked);
    TalliesNote(r1, Counted);
    TalliesNote(r2, StatusWriteFailed);
    TalliesNote(r3, Counted);
    assert d0.log[..0] == [];
    assert Run(d0, steps).log == Note(r3, Counted).log;
  }

  lemma UnheardPass(d: Row)
    requires d == MoveJob(Created(false), JobDone, [A, B])
    ensures RowPass(d, COUNT_UNHEARD).attempts == 2
    ensures RowPass(d, COUNT_UNHEARD).log == [Opened(ByCreation, false), Picked, Counted, StatusWriteFailed, Counted]
  {
    EmptyIsNotPermanent();
    FirstSends();
    assert Sends([A, B], COUNT_UNHEARD) == Sends([A, B], FIRST);
  }

  const NOTICE_UNHEARD := STUCK.(settleWrite := Threw("", true))

  /** A row whose user was told of the failure of a job without clips; the status write may be owed. */
  predicate Told(d: Row, owed: Option<OwedWrite>) {
    && d.status == FAILURE_NOTIFIED && d.job == JobFailed && !d.finished && d.attempts == 0
    && d.clips == [] && d.owed == owed
  }

  lemma NoticePass(d: Row, heard: bool)
    requires d == MoveJob(Created(false), JobFailed, [])
    ensures Told(RowPass(d, if heard then STUCK else NOTICE_UNHEARD), if heard then None else Some(OweFailureNotified))
  {
  }

  lemma ToldRun(heard: bool) returns (steps: seq<Step>)
    ensures LegalRun(steps) && Told(Run(Created(false), steps), if heard then None else Some(OweFailureNotified))
  {
    hide RowPass, Run, Told;
    var e := if heard then STUCK else NOTICE_UNHEARD;
    steps := [JobMoves(JobFailed, [])];
    MovedFirst(JobFailed, []);
    NoticePass(MoveJob(Created(false), JobFailed, []), heard);
    PollNext(steps, e);
    steps := steps + [Poll(e)];
  }

  /** Told of a failure, healed, and one poll failed. */
  lemma HealedOnce() returns (steps: seq<Step>)
    ensures LegalRun(steps)
    ensures var d := Run(Created(false), steps);
            && d.status == FAILURE_NOTIFIED && d.job == JobDone && d.attempts == 1 && d.owed.None?
  {
    hide RowPass;
    var told := ToldRun(true);
    var d0 := Created(false);
    RunOne(d0, told, JobMoves(JobDone, [A, B]));
    DownPass(MoveJob(Run(d0, told), JobDone, [A, B]));
    RunOne(d0, told + [JobMoves(JobDone, [A, B])], Poll(DOWN));
    steps := told + [JobMoves(JobDone, [A, B])] + [Poll(DOWN)];
  }

  /** k pickups since the opening, none of which failed to write. */
  predicate Cost(d: Row, k: nat) {
    && Healed(d) && |d.clips| == 2 && d.owed.None? && d.attempts + 1 == k
    && TalliesOf(d).since == Since(k, 0, true)
  }

  lemma FlushCost(d: Row)
    requires Healed(d) && d.owed == Some(OweFailureNotified) && |d.clips| == 2
    requires TalliesOf(d).since == Since(0, 0, true)
    ensures Cost(RowPass(d, DOWN), 1)
  {
    TalliesNote(d, Picked);
    TalliesNote(Note(d, Picked).(attempts := 0), Wrote(FAILURE_NOTIFIED));
  }

  lemma DownCost(d: Row, k: nat)
    requires Cost(d, k) && k <= 11
    ensures Cost(RowPass(d, DOWN), k + 1)
  {
    DownPass(d);
    TwoNotes(d, Picked, Counted);
  }

  lemma TwoNotes(d: Row, e1: Event, e2: Event)
    ensures Tallied(d.log + [e1, e2]) == Add(Add(TalliesOf(d), e1), e2)
  {
    TalliesNote(d, e1);
    TalliesNote(Note(d, e1), e2);
    assert d.log + [e1, e2] == d.log + [e1] + [e2];
  }

  function Tallied(log: seq<Event>): Tallies {
    DeliverySafety.Tally(log)
  }

  lemma {:induction false} OwedHealCosts(k: nat) returns (steps: seq<Step>)
    requires 1 <= k <= 12
    ensures LegalRun(steps) && Cost(Run(Created(false), steps), k)
  {
    hide RowPass;
    if k == 1 {
      var told := ToldRun(false);
      var d := Run(Created(false), told);
      RunOne(Created(false), told, JobMoves(JobDone, [A, B]));
      LandTallies(d, Moved(JobDone, [A, B]));
      FlushCost(MoveJob(d, JobDone, [A, B]));
      RunOne(Created(false), told + [JobMoves(JobDone, [A, B])], Poll(DOWN));
      steps := told + [JobMoves(JobDone, [A, B])] + [Poll(DOWN)];
    } else {
      var before := OwedHealCosts(k - 1);
      DownCost(Run(Created(false), before), k - 1);
      RunOne(Created(false), before, Poll(DOWN));
      steps := before + [Poll(DOWN)];
    }
  }

  /** The allowance of an opening is reached: a heal that finds a write owed costs thirteen pickups
      although no write fails after it. */
  lemma OwedHealCostsThirteen() returns (steps: seq<Step>)
    ensures LegalRun(steps)
    ensures var since := TalliesOf(Run(Created(false), steps)).since;
            since == Since(13, 0, true) && since.pickups == Allowance(since)
  {
    hide RowPass;
    var before := OwedHealCosts(12);
    var d := Run(Created(false), before);
    LastDownPass(d);
    RunOne(Created(false), before, Poll(DOWN));
    steps := before + [Poll(DOWN)];
    TwoNotes(d, Picked, Counted);
    var counted := d.(log := d.log + [Picked, Counted]);
    TalliesNote(counted, Said(GivenUp(2)));
    assert d.log + [Picked, Counted] + [Said(GivenUp(2))] == d.log + [Picked, Counted, Said(GivenUp(2))];
  }

  /** Finalize's own retry moves the job from done to failed and back. The second heal opens the row with
      an attempt already spent. */
  lemma SecondHealIsShort() returns (steps: seq<Step>)
    ensures LegalRun(steps)
    ensures var d := Run(Created(false), steps);
            && Healed(d) && d.attempts == 1 && EndsWith(d.log, [Opened(ByHeal, false)])
  {
    hide RowPass;
    var before := HealedOnce();
    var d0 := Created(false);
    RunOne(d0, before, JobMoves(JobFailed, []));
    RunOne(d0, before + [JobMoves(JobFailed, [])], JobMoves(JobDone, []));
    steps := before + [JobMoves(JobFailed, [])] + [JobMoves(JobDone, [])];
  }
}
