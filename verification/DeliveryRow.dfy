/** apps/bot/src/handlers.ts and packages/shared/src/services/telegram-delivery.service.ts:
    one delivery row, everything that is keyed by it (the job's status and clips, the owed write
    in the poller's memory, what the chat was told), and one pass of the poller over it.

    The query reads a whole batch of rows at once, and a pass suspends at every await. In each gap
    the update loop of the same process can run resend presses, and the workers can move the job.
    A pass never reads the row again after the query, so an interruption matters only by which
    write or message it precedes; `Gaps` has one sequence of interruptions for each of them. */
module DeliveryRow {
  import opened Wrappers
  import opened ClipDelivery

  const MAX_ATTEMPTS: nat := 12

  datatype Status = PENDING | FAILURE_NOTIFIED | DELIVERED | FAILED

  datatype JobStatus = Running | JobFailed | JobDone

  /** A status write whose message is already in the chat. */
  datatype OwedWrite = OweFailureNotified | OweDelivered | OweFailed

  /** The outcome messages of the delivery loop. */
  datatype Message =
    | FailureNotice
    | NoClips
    | Done(total: nat)
    | Partial(inChat: nat, total: nat)
    | GivenUp(total: nat)

  datatype Opening = ByCreation | ByPress | ByHeal

  /** What happened to the row, oldest first. `Opened` marks the creation, a resend press that
      reached the table, and the moment a row whose user was told of a failure becomes pickable
      because the job is done; `owed` says whether a status write was outstanding then. `Counted` is
      an attempt that reached the table and `Wrote` a settling status that did; `Said` is an outcome
      message Telegram confirmed. */
  datatype Event =
    | Opened(how: Opening, owed: bool)
    | Picked
    | Counted
    | Wrote(status: Status)
    | Said(message: Message)
    | BoardRemoval
    | StatusWriteFailed

  /** `finished`: the job has been done at least once. Finalize is the only stage that comes after
      the clips are rendered, so from then on its clips are what they are, even while its own retries
      move the job's status between done and failed. */
  datatype Row = Row(status: Status, attempts: nat, job: JobStatus, finished: bool, clips: seq<Clip>, board: bool,
                     owed: Option<OwedWrite>, log: seq<Event>)

  function Note(d: Row, e: Event): Row {
    d.(log := d.log + [e])
  }

  /** Told of a failure, and the job is done after all. */
  predicate Healed(d: Row) {
    d.status == FAILURE_NOTIFIED && d.job == JobDone
  }

  /** The poller's query. */
  predicate Pickable(d: Row) {
    (d.status == PENDING && d.job in {JobFailed, JobDone}) || Healed(d)
  }

  /** Opens the row in the log when d became healed on the way from `before`. */
  function NoteHeal(before: Row, d: Row, owed: bool): Row {
    if Healed(d) && !Healed(before) then Note(d, Opened(ByHeal, owed)) else d
  }

  /******* The writes of the delivery service *******/

  function StatusWrite(d: Row, status: Status, attempts: nat, e: Event, w: Write): Row {
    var stored :=
      if w.Applied() then NoteHeal(d, Note(d.(status := status, attempts := attempts), e), false) else d;
    if w.Stored? then stored else Note(stored, StatusWriteFailed)
  }

  function FlushOwed(d: Row, owed: OwedWrite, w: Write): Row {
    match owed
    case OweDelivered => StatusWrite(d, DELIVERED, 0, Wrote(DELIVERED), w)
    case OweFailureNotified => StatusWrite(d, FAILURE_NOTIFIED, 0, Wrote(FAILURE_NOTIFIED), w)
    case OweFailed => StatusWrite(d, FAILED, d.attempts, Wrote(FAILED), w)
  }

  /** The poller passes the attempt count its query read; the write increments the stored one. */
  predicate Terminal(attemptsSoFar: nat) {
    attemptsSoFar + 1 >= MAX_ATTEMPTS
  }

  function AttemptFailed(d: Row, attemptsSoFar: nat, w: Write): Row {
    StatusWrite(d, if Terminal(attemptsSoFar) then FAILED else d.status, d.attempts + 1, Counted, w)
  }

  function Settle(d: Row, owed: OwedWrite, w: Write): Row {
    var flushed := FlushOwed(d.(owed := Some(owed)), owed, w);
    if w.Stored? then flushed.(owed := None) else flushed
  }

  /******* Interruptions *******/

  /** rearmDeliveryForResend, once the row was found and the update reached the table. */
  function Rearm(d: Row): Row {
    Note(d.(status := PENDING, attempts := 0), Opened(ByPress, d.owed.Some?))
  }

  /** A worker moves the job. Until it was done once, a stage may replace its clips. */
  function MoveJob(d: Row, job: JobStatus, clips: seq<Clip>): Row {
    NoteHeal(d, WithJob(d, job, clips), d.owed.Some?)
  }

  function WithJob(d: Row, job: JobStatus, clips: seq<Clip>): Row {
    d.(job := job, finished := d.finished || job == JobDone, clips := if d.finished then d.clips else clips)
  }

  datatype Interruption = Pressed | Moved(job: JobStatus, clips: seq<Clip>)

  function Land(d: Row, i: Interruption): Row {
    match i
    case Pressed => Rearm(d)
    case Moved(job, clips) => MoveJob(d, job, clips)
  }

  function Interrupt(d: Row, gap: seq<Interruption>): Row {
    if gap == [] then d else Land(Interrupt(d, gap[..|gap| - 1]), gap[|gap| - 1])
  }

  /******* One pass *******/

  /** Telegram's answer to a sendMessage. */
  datatype Reply = Confirmed | Unconfirmed(message: string)

  /** What lands ahead of the row's turn in the batch and ahead of each write and message. */
  datatype Gaps = Gaps(
    beforeTurn: seq<Interruption>,
    beforeAttempt: seq<Interruption>,
    beforeMessage: seq<Interruption>,
    beforeSettle: seq<Interruption>,
    beforeCatch: seq<Interruption>,
    beforeNotice: seq<Interruption>)

  datatype PassEnv = PassEnv(
    locale: Option<string>,
    clips: seq<ClipEnv>,
    maxBytes: nat,
    attemptWrite: Write,
    summary: Reply,
    settleWrite: Write,
    catchWrite: Write,
    notice: Reply,
    gaps: Gaps)

  /** What the query returned of the row and its job. */
  datatype Seen = Seen(job: JobStatus, attempts: nat, clips: seq<Clip>)

  function SeenOf(d: Row): Seen {
    Seen(d.job, d.attempts, d.clips)
  }

  /** How the try block ended: the message of the throw, if it threw. */
  datatype Attempt = Attempt(row: Row, threw: Option<string>)

  function Say(d: Row, m: Message): Row {
    Note(d, Said(m))
  }

  function RemoveBoard(d: Row): Row {
    if d.board then Note(d, BoardRemoval) else d
  }

  /** After a confirmed outcome message: take the board down, then settle. Neither throws. */
  function Finish(d: Row, owed: OwedWrite, e: PassEnv): Row {
    Settle(Interrupt(RemoveBoard(d), e.gaps.beforeSettle), owed, e.settleWrite)
  }

  /** Post an outcome message; if Telegram confirms it, finish the row. */
  function Conclude(d: Row, m: Message, owed: OwedWrite, e: PassEnv): Attempt {
    var now := Interrupt(d, e.gaps.beforeMessage);
    if e.summary.Confirmed? then Attempt(Finish(Say(now, m), owed, e), None)
    else Attempt(now, Some(e.summary.message))
  }

  function Summary(inChat: nat, total: nat): Message {
    if inChat == total then Done(total)
    else if inChat > 0 then Partial(inChat, total)
    else GivenUp(total)
  }

  function Sends(clips: seq<Clip>, e: PassEnv): Pass {
    DeliverClips(clips, e.clips, e.maxBytes)
  }

  /** Clips in the chat as the pass counts them: recorded at the query, plus delivered by it. */
  function InChat(clips: seq<Clip>, e: PassEnv): nat {
    CountRecorded(clips) + Sends(clips, e).delivered
  }

  function Summarise(d: Row, inChat: nat, total: nat, e: PassEnv): Attempt {
    Conclude(d, Summary(inChat, total), if inChat < total then OweFailed else OweDelivered, e)
  }

  function SendClips(d: Row, seen: Seen, e: PassEnv): Attempt {
    var p := Sends(seen.clips, e);
    var sent := d.(clips := p.clips);
    if p.escaped.Some? then Attempt(sent, p.escaped)
    else if p.pending == 0 then Summarise(sent, InChat(seen.clips, e), |seen.clips|, e)
    else
      var counted := AttemptFailed(Interrupt(sent, e.gaps.beforeAttempt), seen.attempts, e.attemptWrite);
      if e.attemptWrite.Threw? then Attempt(counted, Some(e.attemptWrite.message))
      else if !Terminal(seen.attempts) then Attempt(counted, None)
      else Summarise(counted, InChat(seen.clips, e), |seen.clips|, e)
  }

  function TryBody(d: Row, seen: Seen, e: PassEnv): Attempt {
    if e.locale.Some? then Attempt(d, e.locale)
    else if seen.job == JobFailed then Conclude(d, FailureNotice, OweFailureNotified, e)
    else if seen.clips == [] then Conclude(d, NoClips, OweDelivered, e)
    else SendClips(d, seen, e)
  }

  function CatchBody(d: Row, seen: Seen, message: string, e: PassEnv): Row {
    var now := Interrupt(d, e.gaps.beforeCatch);
    if IsPermanentTelegramError(message) then Settle(now, OweFailed, e.settleWrite)
    else
      var counted := AttemptFailed(now, seen.attempts, e.catchWrite);
      if e.catchWrite.Stored? && Terminal(seen.attempts) then GiveNotice(counted, |seen.clips|, e) else counted
  }

  /** The write retired the row; this is the last chance to say anything. */
  function GiveNotice(d: Row, total: nat, e: PassEnv): Row {
    var now := Interrupt(d, e.gaps.beforeNotice);
    if e.notice.Confirmed? then Say(now, GivenUp(total)) else now
  }

  /** The row when its turn in the batch comes. */
  function AtTurn(d: Row, e: PassEnv): Row {
    Interrupt(Note(d, Picked), e.gaps.beforeTurn)
  }

  /** The try block of a pass over d. */
  function Tried(d: Row, e: PassEnv): Attempt {
    TryBody(AtTurn(d, e), SeenOf(d), e)
  }

  function FlushPass(d: Row, owed: OwedWrite, e: PassEnv): Row {
    var flushed := FlushOwed(d, owed, e.settleWrite);
    if e.settleWrite.Stored? then flushed.(owed := None) else flushed
  }

  /** One iteration of deliverReadyTelegramJobs on a row its query returned as d. */
  function RowPass(d: Row, e: PassEnv): Row {
    if d.owed.Some? then FlushPass(AtTurn(d, e), d.owed.value, e)
    else
      var a := Tried(d, e);
      if a.threw.Some? then CatchBody(a.row, SeenOf(d), a.threw.value, e) else a.row
  }

  /******* Runs *******/

  /** Everything that can happen to a row, at the granularity a run is made of. */
  datatype Step =
    | Poll(env: PassEnv)
    | ResendPress(ownRow: bool, write: Write)
    | JobMoves(job: JobStatus, clips: seq<Clip>)

  function Next(d: Row, s: Step): Row {
    match s
    case Poll(env) => if Pickable(d) then RowPass(d, env) else d
    case ResendPress(ownRow, w) => if ownRow && w.Applied() then Rearm(d) else d
    case JobMoves(job, clips) => MoveJob(d, job, clips)
  }

  function Run(d: Row, steps: seq<Step>): Row {
    if steps == [] then d else Next(Run(d, steps[..|steps| - 1]), steps[|steps| - 1])
  }

  function Created(board: bool): Row {
    Row(PENDING, 0, Running, false, [], board, None, [Opened(ByCreation, false)])
  }

  /** A worker writes clips nobody has sent yet. */
  predicate Unsent(clips: seq<Clip>) {
    forall i :: 0 <= i < |clips| ==> Owed(clips[i]) && clips[i].sends == []
  }

  predicate LegalGap(gap: seq<Interruption>) {
    forall i :: 0 <= i < |gap| && gap[i].Moved? ==> Unsent(gap[i].clips)
  }

  predicate LegalGaps(g: Gaps) {
    && LegalGap(g.beforeTurn) && LegalGap(g.beforeAttempt) && LegalGap(g.beforeMessage)
    && LegalGap(g.beforeSettle) && LegalGap(g.beforeCatch) && LegalGap(g.beforeNotice)
  }

  predicate LegalStep(s: Step) {
    match s
    case Poll(env) => LegalGaps(env.gaps)
    case ResendPress(_, _) => true
    case JobMoves(_, clips) => Unsent(clips)
  }

  predicate LegalRun(steps: seq<Step>) {
    forall i :: 0 <= i < |steps| ==> LegalStep(steps[i])
  }

  lemma RunOne(d: Row, steps: seq<Step>, s: Step)
    ensures Run(d, steps + [s]) == Next(Run(d, steps), s)
  {
    assert (steps + [s])[..|steps|] == steps;
  }

  lemma {:induction false} RunConcat(d: Row, first: seq<Step>, more: seq<Step>)
    ensures Run(d, first + more) == Run(Run(d, first), more)
  {
    hide Next;
    if more == [] {
      assert first + more == first;
    } else {
      RunConcat(d, first, more[..|more| - 1]);
      assert first + more == first + more[..|more| - 1] + [more[|more| - 1]];
      RunOne(d, first + more[..|more| - 1], more[|more| - 1]);
    }
  }

  /** An interruption sets the status to PENDING or leaves it, and touches neither the owed write nor
      the clips of a finished job. */
  lemma {:induction false} InterruptFrame(d: Row, gap: seq<Interruption>)
    ensures var r := Interrupt(d, gap);
            && r.status == (if Pressed in gap then PENDING else d.status)
            && r.owed == d.owed && r.board == d.board
            && (d.finished ==> r.finished && r.clips == d.clips)
            && (r.attempts == d.attempts || (Pressed in gap && r.attempts == 0))
  {
    if gap != [] {
      InterruptFrame(d, gap[..|gap| - 1]);
      assert gap == gap[..|gap| - 1] + [gap[|gap| - 1]];
    }
  }

  lemma StatusWriteFrame(d: Row, status: Status, attempts: nat, e: Event, w: Write)
    ensures var r := StatusWrite(d, status, attempts, e, w);
            && r.status == (if w.Applied() then status else d.status)
            && r.attempts == (if w.Applied() then attempts else d.attempts)
            && r.owed == d.owed && r.job == d.job && r.finished == d.finished && r.clips == d.clips
            && r.board == d.board
  {
  }

  lemma AttemptFrame(d: Row, attemptsSoFar: nat, w: Write)
    ensures var r := AttemptFailed(d, attemptsSoFar, w);
            && r.status == (if w.Applied() && Terminal(attemptsSoFar) then FAILED else d.status)
            && r.attempts == d.attempts + (if w.Applied() then 1 else 0)
            && r.owed == d.owed && r.job == d.job && r.finished == d.finished && r.clips == d.clips
            && r.board == d.board
  {
    hide StatusWrite;
    StatusWriteFrame(d, if Terminal(attemptsSoFar) then FAILED else d.status, d.attempts + 1, Counted, w);
  }

  /** The status an owed write stands for. */
  function StatusOf(owed: OwedWrite): Status {
    match owed
    case OweDelivered => DELIVERED
    case OweFailureNotified => FAILURE_NOTIFIED
    case OweFailed => FAILED
  }

  lemma FlushFrame(d: Row, owed: OwedWrite, w: Write)
    ensures var r := FlushOwed(d, owed, w);
            && r.status == (if w.Applied() then StatusOf(owed) else d.status)
            && r.attempts == (if w.Applied() && owed != OweFailed then 0 else d.attempts)
            && r.owed == d.owed && r.job == d.job && r.finished == d.finished && r.clips == d.clips
            && r.board == d.board
  {
    hide StatusWrite;
    match owed {
      case OweDelivered => StatusWriteFrame(d, DELIVERED, 0, Wrote(DELIVERED), w);
      case OweFailureNotified => StatusWriteFrame(d, FAILURE_NOTIFIED, 0, Wrote(FAILURE_NOTIFIED), w);
      case OweFailed => StatusWriteFrame(d, FAILED, d.attempts, Wrote(FAILED), w);
    }
  }

  lemma SettleFrame(d: Row, owed: OwedWrite, w: Write)
    ensures var r := Settle(d, owed, w);
            && r.status == (if w.Applied() then StatusOf(owed) else d.status)
            && r.attempts == (if w.Applied() && owed != OweFailed then 0 else d.attempts)
            && r.owed == (if w.Stored? then None else Some(owed))
            && r.job == d.job && r.finished == d.finished && r.clips == d.clips && r.board == d.board
  {
    hide FlushOwed;
    FlushFrame(d.(owed := Some(owed)), owed, w);
  }
}
