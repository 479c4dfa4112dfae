# Clip delivery, WARP rotation and their neighbours, in Dafny

A model of the parts of the repository that promise something over whole runs while any awaited
call may fail, and proofs of those promises. The Telegram delivery protocol is the main subject;
around it stand the WARP rotation control, the stage workers' slot bookkeeping, the checkout lock,
the album map, and the data-level cores (support chat merge, proxy framing, ICO writer, cost
arithmetic, update loop, callback codec).

`dafny verify dfyconfig.toml` verifies the whole project. Every module is one file of the same name.

## How it is built

| part of the program | modules |
|---|---|
| one pass over the clips of a job | `ClipDelivery` |
| one delivery row, one poll of it, and runs of polls, presses and job moves | `DeliveryRow` |
| what every run of a row keeps | `DeliverySafety`, `DeliveryGrants`, `DeliveryTruth`, `DeliveryOpenings`, `DeliveryPatience` |
| what a resend press buys; what a poll tells the user, and when that is that the bot gave up | `DeliveryPresses`, `DeliveryMessages`, `DeliveryGivenUp` |
| runs in which a promise fails | `DeliveryWitnesses` |
| the poller itself: tables, the owed-write memo, try, catch, batch loop | `DeliveryBot` |
| one rotation over an adversarial proxy; many request threads and one lock | `WarpRotation`, `WarpLock` |
| stage workers | `StageEvents` |
| taps on plan buttons | `Checkout` |
| albums | `MediaGroups`, `Decimal` |
| support chat | `SupportChat`, `StableSort` |
| the IPv4 proxy | `Connect4`, `Connect4Relay`, `AbsoluteForm` |
| icons, costs, updates, buttons | `IcoWriter`, `CostTelemetry`, `UpdateLoop`, `Callbacks` |
| shared shapes | `Wrappers`, `Ascii`, `Counting` |

The outside world is data. Storage, Telegram, the database and the payment provider answer from
scripts that nothing constrains: a send may be confirmed, refused with a parsed reply, or get no
reply after landing or not landing; a database write may succeed, or throw with or without having
reached the table. A lemma over all scripts is a lemma over all behaviours of those services.

Code that changes state in place is a class or a method with a loop (`DeliveryBot.Bot`,
`WarpRotation.Control`, `MediaGroups.ClaimedGroups`, `UpdateLoop.Poller`, the sockets of
`Connect4Relay`, the buffers of `IcoWriter`). Each such method is proved equal to a function of the
old state, and what holds of every run is proved about those functions. (The steps of a delivery run
are `Bot.Create`, `DeliverRow`, `RearmForResend` and `WriteJob`, one method for each.) Where threads
or callbacks interleave (`WarpLock`, `Checkout`, `StageEvents`) the model is a step system whose steps
are the stretches between two awaits, and the lemmas hold for every sequence of steps. Inside a
delivery pass, any number of resend presses and job moves may land ahead of the row's turn in the
batch and ahead of each of its writes and messages.

In the delivery log, an *opening* is the creation of the row, a resend press that reached the table,
or the moment a row whose user was told of a failure becomes pickable because its job is done. A job
may be done, fail and be done again: finalize writes DONE, may then throw, and writes FAILED before
its retry (apps/worker/src/stages/finalize.ts:256-305). What does not change once a job has been done
is its clips. A *grant* is an opening somebody asked for: the creation or a press. The promise of
packages/shared/src/services/telegram-delivery.service.ts:117-121, that a row is delivered at most twice
(one failure notice, one set of clips) and picked up a bounded number of times, argues from a job
becoming DONE at most once. That premise is false, but the promise holds all the same, per grant and
however often the job heals (`DeliveryGrants.RunIsGranted`).

Assumptions: one delivery row per job and one poller process; within one process the owed-write memo
survives; recorded file ids are not empty; workers write clip rows without a file id or a send error; no
stage renders clips for a job that was done already; creation dates are valid; an account has one
Telegram id, so that one name stands for the key of the checkout lock and the owner of the order; and
only taps on plan buttons create orders.

## Where the code does less than it says

Each of these is a lemma; where a promise fails, its exact condition is proved for all runs, and a run
that starts from the creation of the row shows that it happens.

- A resend press is acknowledged and thrown away whenever something later in the same poll settles or
  retires the row: a confirmed outcome message (its settle follows, or stays owed), an unreachable
  chat, or the count of the last attempt, which only a press ahead of the notice survives. It is also
  thrown away while a status write is owed. `DeliveryPresses.OpenAfterPassIff` is the exact condition
  over every placement of presses; `DeliveryWitnesses.PressIsLost` and `OwedPressIsLost` are runs in
  which a clip that could still be sent never is. The comment at
  apps/bot/src/clip-delivery.ts:189-193 says everything after a press is the ordinary loop.
- The poll decides by the attempt count its query read, which
  packages/shared/src/services/telegram-delivery.service.ts:212-214 takes to be fresh: a press during
  the poll that spends the last attempt is retired with it
  (`DeliveryPresses.PressBeforeCatchSurvivesUnlessLast`,
  `DeliveryWitnesses.PressRetiredWithTheLastAttempt`).
- Two outcome messages can follow one opening when a press lands between the write that retires a row
  and the given-up notice, and only then (`DeliveryOpenings.PassIsStrictUnlessLateNotice` for one poll,
  `RunAlternatesIff` for runs, `DeliveryWitnesses.TwoMessagesOneOpening`).
  apps/bot/src/handlers.ts:1812-1815 says the message is bounded at one.
- The given-up copy, which is reserved for an empty chat at apps/bot/src/handlers.ts:1718-1720, is also
  sent with recorded clips in the chat, in exactly two cases: the try block threw on the last attempt, or
  the summary counted nothing although the pass recorded a clip by a write that threw
  (`DeliveryGivenUp.GivenUpDespiteClips`, `DeliveryWitnesses.GivenUpWithClipsInChat`,
  `GivenUpBehindItsOwnClip`). A summary that says it is right about the chat if and only if there is no
  such clip and no upload landed unnoticed (`DeliveryGivenUp.SummaryGivesUpRightlyIff`).
- Finalize's retry makes a job done again, and each time opens a row that was told of a failure. The first
  such heal brings the whole attempt budget; a later one does if and only if no attempt was counted since
  the notice (`DeliveryPatience.HealBringsWholeBudgetIff`, `DeliveryWitnesses.SecondHealIsShort`).
- An opening that finds a status write owed can cost thirteen pickups, one more than the budget
  (`DeliverySafety.RunAccounts`, `DeliveryWitnesses.OwedHealCostsThirteen`).
- One pickup spends two attempts if and only if the try block counted and then threw and the catch
  block's count reached the table too (`DeliveryPatience.TwoAttemptsIff`,
  `DeliveryWitnesses.TwoAttemptsForOnePickup`).
- A `markSent` that throws after reaching the table leaves a clip recorded but counted as pending, so
  a partial summary can name fewer clips than are there, and the given-up copy can take the place of a
  partial summary; `DeliveryTruth.SummaryIsExact` gives the difference
  (`DeliveryWitnesses.PartialNamesTooFew`, `GivenUpBehindItsOwnClip`).
- A rotation that raises starts no cooldown (`WarpLock.RaisedRotationStartsNoCooldown`), and
  `rotated` proves a move between two exits if and only if the first address could be read
  (`WarpRotation.Control.RotateLocked`, `WarpRotation.BlindRotation`).
- A remote order whose creation threw after taking effect is never cancelled
  (`Checkout.UnrecordedOrdersAreCancelledIffAnswered`, `UnheardOrderStays`), and an order whose insert
  threw after taking effect is cancelled while its row stays pending, so its link is shown again
  (`Checkout.RecordedOrdersAreCancelledIffUnheard`, `CancelledLinkIsShown`).
- A user's slot is released while a stage of the same job is still alive if and only if some stage's add
  of the next one landed and threw (`StageEvents.ReleasedEarlyIffForked`, `ForkReleasesTwice`); a queue
  job that names no user never releases one (`StageEvents.NamelessJobKeepsItsSlot`).
- On a clock that steps back one album can be answered twice within the TTL; the exact condition, for
  every clock, is that some claim in between saw a time past the expiry
  (`MediaGroups.ClaimSucceedsIffUnblocked`, `BackwardClockAnswersTwice`).
- A support poll that was read before a message was stored drops the message if it arrives behind the
  answer to its send, and only then (`SupportChat.AnsweredRowIsShownIffPollIsNewer`,
  `StalePollDropsAnsweredRow`).
- Near its limit, whether `read_head` succeeds depends on how the stream was cut
  (`Connect4.ReadHoweverCutIff`, `ReadSomehowIff`, `CutDecides`); a `content-length` line without a colon
  raises an IndexError, which the caller at docker/warp/connect4.py:153-164 does not catch
  (`AbsoluteForm.RewriteHeaders`, `ColonlessLength`).
- The feedback parser accepts the names every JavaScript object inherits as codes, although its
  comment at apps/bot/src/clip-feedback-keyboard.ts:45-47 promises null
  (`Callbacks.ReencodeIsExactUnlessInherited`).
- The icon directory stores 0 for every size from 256 up and for 0, so a size reads back exactly when
  it is between 1 and 256 (`IcoWriter.EntriesTileTheFile`).

## Model

| member | source | states |
|---|---|---|
| `ClipDelivery.PermanentIgnoresCase` | packages/shared/src/services/telegram-delivery.service.ts:192-205 | Letter case never decides whether a refusal counts as permanent. |
| `ClipDelivery.PermanentExactly` | packages/shared/src/services/telegram-delivery.service.ts:192-205 | A refusal counts as permanent if and only if one of the seven texts stands in it, anywhere and in any letter case. |
| `ClipDelivery.PassThrowsIff` | apps/bot/src/clip-delivery.ts:105-186 | A pass throws if and only if some clip it reaches is uploaded and refused because the chat is unreachable for good, or needs a permanent verdict whose write throws; it stops at the first such clip, with its message, and leaves the later ones as they were. |
| `ClipDelivery.PassNeedsEvidence` | apps/bot/src/clip-delivery.ts:90-186 | One clip's failure costs only itself: each clip the pass reaches is refused for good if and only if its object is gone or measured over the limit, gets a file id if and only if Telegram confirmed the upload and the write reached the row, and is uploaded if and only if it is owed and within the limit, whatever happened to the others; a clip it does not reach is untouched. |
| `ClipDelivery.CountersAreExact` | apps/bot/src/clip-delivery.ts:105-186 | Recorded before + delivered + pending + unsendable = clips, and the four counters agree with the clip rows after the pass. |
| `ClipDelivery.DeliveredMeansHeard` | apps/bot/src/clip-delivery.ts:143-160 | What a returning pass counts as delivered is exactly the uploads that were confirmed and whose write was heard. |
| `ClipDelivery.CopiesAreBounded` | apps/bot/src/clip-delivery.ts:14-24 | By what the uploads came back with: the copies of a clip in the chat are the recorded one, the unanswered uploads that landed, and the confirmed ones whose file id was lost; a refused upload never adds one. |
| `ClipDelivery.PassKeepsClips` | apps/bot/src/clip-delivery.ts:90-186 | A pass, returning or throwing, keeps every clip's upload history well-formed and leaves clips alone that are recorded or refused for good. |
| `DeliveryBot.Bot.Create` | packages/shared/src/services/telegram-delivery.service.ts:13-24 | A new row starts open with its whole budget, and no other row changes. |
| `DeliveryBot.Bot.SendClipsInOrder` | apps/bot/src/clip-delivery.ts:90-187 | The loop over the clip table ends in the state, with the counters and with the throw of the pass function that the lemmas are about. |
| `DeliveryBot.Bot.RearmForResend` | apps/bot/src/clip-delivery.ts:194-209 | False for a stranger's row, nothing returned when the write throws, and otherwise an opening of that row and of no other. |
| `DeliveryBot.Bot.FlushOwedWrite` | apps/bot/src/handlers.ts:1270-1276 | Each owed kind is written with its own status and attempt count, and it throws if and only if the write does. |
| `DeliveryBot.Bot.SettleDelivery` | apps/bot/src/handlers.ts:1283-1296 | Never throws; the write is owed afterwards if and only if it failed. |
| `DeliveryBot.Bot.MarkAttemptFailed` | packages/shared/src/services/telegram-delivery.service.ts:218-233 | Terminal exactly on the twelfth attempt as the query read it, one write, and a throw that counts only if the table was reached. |
| `DeliveryBot.Bot.SendOutcome` | apps/bot/src/handlers.ts:1609-1633 | An unconfirmed message changes nothing; a confirmed one is followed by the board's removal and the settle, and by no throw. |
| `DeliveryBot.Bot.SendSummary` | apps/bot/src/handlers.ts:1706-1764 | Done, partial or given-up by how many clips are in the chat, settled DELIVERED only for all of them. |
| `DeliveryBot.Bot.DeliverJobClips` | apps/bot/src/handlers.ts:1645-1764 | A pass that leaves clips owed says nothing and spends an attempt, unless it was the last. |
| `DeliveryBot.Bot.Try` | apps/bot/src/handlers.ts:1596-1764 | The try block as a whole equals the row function: what it sent, wrote and threw. |
| `DeliveryBot.Bot.Catch` | apps/bot/src/handlers.ts:1768-1848 | Nothing escapes the catch block; the notice goes out only behind the write that retires the row. |
| `DeliveryBot.Bot.DeliverRow` | apps/bot/src/handlers.ts:1566-1849 | One iteration, on what the query returned of the row and with anything landing ahead of its turn, changes that row as its pass function says and nothing keyed by another. |
| `DeliveryBot.Bot.DeliverReadyTelegramJobs` | apps/bot/src/handlers.ts:1560-1851 | One query, then the batch: whatever one row meets, every other row ends as if polled by itself on what the query returned of it, presses and job moves ahead of its turn included; rows outside the batch are untouched. |
| `DeliverySafety.PassAccounts` | apps/bot/src/handlers.ts:1566-1849 | One pass keeps the books: messages plus the right to speak never exceed openings, and every pickup is paid for, by the opening under way and by the run as a whole. |
| `DeliverySafety.RunAccounts` | packages/shared/src/services/telegram-delivery.service.ts:108-122 | Over every run, interruptions in any gap: outcome messages never outnumber openings; at every point of the history the opening under way has cost at most 12 pickups, one per status write that failed since, and one if a write was owed when it came; over the whole run pickups are at most 12 per opening plus the failed status writes. |
| `DeliveryGrants.RunIsGranted` | packages/shared/src/services/telegram-delivery.service.ts:108-122 | Over every run, interruptions in any gap, the job failing and being done again as often as it likes: per grant at most one failure notice and at most one word on how the clips went, and at most 24 pickups per grant plus one per failed status write. |
| `DeliveryMessages.PassTellsTheTruth` | apps/bot/src/handlers.ts:1600-1764 | What one poll shows the user: at most one outcome message, with the board right behind a confirmed one if there is a board. "k of n" means n clips in the job and k recorded ones, short only of those recorded by an unheard write; "done n" that all n are recorded, and there are some; "no clips", the failure and the given-up copy each on its own exact ground; and the row is settled as the message says. |
| `DeliveryMessages.RunTellsTheTruth` | apps/bot/src/handlers.ts:1560-1851 | Over every run: nothing is shown but by a poll that picks the row up, and that poll shows what the clips it leaves call for. |
| `DeliveryTruth.SummaryIsExact` | apps/bot/src/handlers.ts:1702-1709 | What the pass counts as in the chat is the number of recorded clips, short by exactly those whose file id was stored by a write that threw; it reaches the total only if all are recorded. |
| `DeliveryTruth.PassClips` | apps/bot/src/handlers.ts:1567-1684 | A pass runs the clip loop on what the query saw if and only if nothing was owed, the locale could be read and the job was seen done with clips; otherwise it leaves the clips alone. |
| `DeliveryTruth.RunTruth` | apps/bot/src/handlers.ts:1600-1764 | Over every run, with the job moving between done and failed as it likes: DELIVERED, written or owed, means every clip of a job that was done is recorded; a done or partial message stays true for ever; the board is removed only right behind a confirmed message; the copies of every clip are accounted for by what its uploads came back with. |
| `DeliveryTruth.PassFreezesSettled` | apps/bot/src/clip-delivery.ts:90-104 | One poll of a finished job's row keeps every clip that is recorded or refused for good exactly as it was. |
| `DeliveryTruth.NeverSentAgain` | apps/bot/src/clip-delivery.ts:90-209 | From the creation of the row: once a clip is recorded or refused for good at any point of a run, no continuation, presses included, uploads it again or touches it. |
| `DeliveryOpenings.OwedRowStaysSilent` | apps/bot/src/handlers.ts:1567-1582 | While a status write is owed a pickup sends nothing and says nothing; it settles the row if and only if the write is heard. |
| `DeliveryOpenings.PassIsStrictUnlessLateNotice` | apps/bot/src/handlers.ts:1791-1848 | A pass keeps "an opening between any two messages" if and only if no press landed between the retiring write and a confirmed notice. |
| `DeliveryOpenings.RunAlternatesIff` | apps/bot/src/handlers.ts:1560-1851 | Over every run: each step keeps "an opening between any two messages" if and only if no poll of the run says a given-up notice behind a press that landed after the retiring write. |
| `DeliveryOpenings.RunAlternates` | apps/bot/src/handlers.ts:1560-1851 | In every such run any two outcome messages have an opening between them. |
| `DeliveryGivenUp.GivenUpIff` | apps/bot/src/handlers.ts:1698-1830 | A poll says the given-up copy once if the try block threw on the last attempt, the count was heard and the notice went out, or if its summary was confirmed with nothing counted in the chat, and otherwise never. |
| `DeliveryGivenUp.GivenUpDespiteClips` | apps/bot/src/handlers.ts:1718-1830 | Over a chat with recorded clips the second of these needs a file id stored by a write that threw, and nothing else changes. |
| `DeliveryGivenUp.SummaryGivesUpRightlyIff` | apps/bot/src/handlers.ts:1718-1749 | A summary that says the given-up copy leaves an empty chat if and only if no file id of the pass was stored by a write that threw and no upload of the job ever landed unanswered or lost its file id. |
| `DeliveryPatience.RunIsPatient` | packages/shared/src/services/telegram-delivery.service.ts:159-176 | Over every run: the stored count is exactly the attempts that reached the table since the budget was last renewed, and an open row's count is at most the pickups and failed writes since then, plus one only if a press landed inside a poll. |
| `DeliveryPatience.NoFaultRetiresEarly` | packages/shared/src/services/telegram-delivery.service.ts:178-232 | Over every run a pass retires a row only for an unreachable chat, for clips refused for good with nothing owed, or once twelve pickups and failed writes have passed since the budget was renewed, eleven if a press landed inside a poll. |
| `DeliveryPatience.HealBringsWholeBudgetIff` | packages/shared/src/services/telegram-delivery.service.ts:117-121 | A heal opens the row with its whole budget if and only if no attempt was counted since the failure notice was written, which the first heal of a job always satisfies. |
| `DeliveryPatience.TwoAttemptsIff` | packages/shared/src/services/telegram-delivery.service.ts:207-217 | A pickup spends at most two attempts, and two if and only if the try block counted and then threw (its own counting write before the last attempt, or the summary behind it on the last) and the second count reached the table. |
| `DeliveryPresses.OpenAfterPassIff` | apps/bot/src/clip-delivery.ts:189-209 | For every row, script and placement of presses in a poll: the row is pending afterwards with nothing owed if and only if no settle and no retiring count comes after the last press, read off the script. |
| `DeliveryPresses.ToldAfterPassIff` | apps/bot/src/handlers.ts:1600-1623 | The one other way a pending row stays pickable: the failure notice was written and heard, which renews the budget. |
| `DeliveryPresses.PressBetweenPolls` | apps/bot/src/handlers.ts:1567-1582 | A press between two polls opens the row with its whole budget if and only if no write was owed; if one was, the next pickup sends nothing and the row is not open after it. |
| `DeliveryPresses.PressBeforeCatchSurvivesUnlessLast` | apps/bot/src/handlers.ts:1791-1796 | A press landing before the catch block counts reopens the row if and only if that poll was not spending the last attempt, or its write was lost. |
| `DeliveryWitnesses.PressIsLost` | apps/bot/src/handlers.ts:1728-1764 | A run from the creation: the partial summary is confirmed with a clip still owed, its button is pressed, the press reaches the table, and no continuation without another press ever sends the clip. |
| `DeliveryWitnesses.OwedPressIsLost` | apps/bot/src/handlers.ts:1567-1582 | The same with the settle failing, the press between two polls and the next poll writing what was owed over it. |
| `DeliveryWitnesses.PressRetiredWithTheLastAttempt` | packages/shared/src/services/telegram-delivery.service.ts:212-223 | A run in which a press before the last count leaves a retired row with one attempt on the new budget. |
| `DeliveryWitnesses.TwoMessagesOneOpening` | apps/bot/src/handlers.ts:1812-1830 | A run with a partial summary, its button, eleven failing polls and a press in the gap of the twelfth: given up and then done, with no opening between. |
| `DeliveryWitnesses.GivenUpWithClipsInChat` | apps/bot/src/handlers.ts:1718-1830 | A run that ends on the given-up copy with a clip in the chat. |
| `DeliveryWitnesses.PartialNamesTooFew` | apps/bot/src/handlers.ts:1702-1748 | From the creation: a partial summary names one clip of two while both are recorded. |
| `DeliveryWitnesses.GivenUpBehindItsOwnClip` | apps/bot/src/handlers.ts:1702-1748 | From the creation: the last attempt delivers the only clip, the write of its file id reaches the table and throws, and the summary says the given-up copy; the try block did not throw. |
| `DeliveryWitnesses.TwoAttemptsForOnePickup` | packages/shared/src/services/telegram-delivery.service.ts:215-231 | A run with one pickup and two attempts. |
| `DeliveryWitnesses.SecondHealIsShort` | apps/worker/src/stages/finalize.ts:256-305 | A run in which the job is done, fails and is done again, and the second heal opens the row with an attempt spent. |
| `DeliveryWitnesses.OwedHealCostsThirteen` | packages/shared/src/services/telegram-delivery.service.ts:108-122 | A run in which the allowance of an opening that finds a write owed is used up. |
| `WarpRotation.Control.AwaitChange` | docker/warp/control.py:106-120 | At least one read, at most ceil(deadline - entry) + 1 when the deadline is ahead; it ends on the first reading that moved, or not before the deadline. |
| `WarpRotation.Control.TryOnce` | docker/warp/control.py:154-158 | One disconnect and one connect, then the exit is watched until it moves, for eight seconds or to the deadline. |
| `WarpRotation.Control.TryReconnects` | docker/warp/control.py:151-169 | At most the allowed reconnects, and without a move no fewer unless the deadline has come; never an escalation; the pin is forgotten if and only if one of them moved the address. |
| `WarpRotation.Control.Escalate` | docker/warp/control.py:182-189 | A completed escalation is remembered as of its end if and only if it did not move the address; one that raised leaves the memory alone. |
| `WarpRotation.Control.RotateLocked` | docker/warp/control.py:123-202 | Rotated if and only if the last reading is an address other than the first, which proves a move between two exits if and only if the first was readable. An escalation (delete, new, connect) comes only behind all the configured reconnects or at the deadline, and only unpinned; an answer without one moved or was pinned; not moved is named by whether the last reading was an address, and is answered at the deadline or pinned behind one reconnect; back within the deadline plus 211 seconds. |
| `WarpRotation.Control.Rotate` | docker/warp/control.py:205-237 | Under the lock exactly one of coalesced, cooldown or an own rotation, each on its exact condition; only a completed rotation moves the cooldown. The decision is the one the threads of `WarpLock` take. |
| `WarpRotation.FutileEscalationIsRemembered` | docker/warp/control.py:70-79 | Between a futile escalation and the next start of one lie the pin memory, a move, or another completed escalation. |
| `WarpRotation.BlindRotation` | docker/warp/control.py:140-169 | A rotation over an exit that never changes, whose first read fails: the answer is rotated. |
| `WarpLock.RunKeepsInv` | docker/warp/control.py:205-237 | Over all interleavings: rotations are serialized, each was asked for after the last completed one and starts a cooldown after it, and a coalesced caller gets a rotation that completed while it waited. |
| `WarpLock.CompletedRotationsPerWindow` | docker/warp/control.py:63-63 | At most T / cooldown + 1 rotations complete in any window of length T. |
| `WarpLock.EntryAfterCompletionCools` | docker/warp/control.py:214-215 | Once a rotation has completed, every later entry is a cooldown behind a completed one. |
| `WarpLock.RaisedRotationStartsNoCooldown` | docker/warp/control.py:223-226 | After a rotation that raised, the next request is let in at the same instant. |
| `StageEvents.SlotIsFreedOnceAtTheEnd` | apps/worker/src/worker-app.ts:77-114 | While no add has landed and thrown: nothing is released, refunded or reported while an attempt or stage can still run, and once none can there is one ending with its one release, its refund and its alert, all for the right owner. |
| `StageEvents.EveryEndingIsSettledOnce` | apps/worker/src/worker-app.ts:77-252 | In every run, stages that throw behind a landed add included: each queue job that ends releases once the slot of the user it names, refunds if and only if it failed for good, and alerts if and only if that failure was not unrecoverable; an alert names a stage that used its attempts up; nothing else does anything; as many end or are alive as adds have put on a queue. |
| `StageEvents.EveryJobEnds` | apps/worker/src/worker-app.ts:241-252 | Whatever its attempts meet, a pipeline job none of whose adds landed and threw is over after as many attempts as its stages' budgets add up to. |
| `StageEvents.StagesInOrder` | apps/worker/src/stages/analyze.ts:265-280 | A job that succeeds everywhere goes through download, transcription, analysis, render (unless there are no clips) and finalize once each and ends finished. |
| `StageEvents.ThrowEndsIff` | apps/worker/src/worker-app.ts:160-252 | A throw ends its queue job if and only if the row is deleted, the failure is unrecoverable or the attempt was the last; otherwise the same stage runs again with one attempt used up. |
| `StageEvents.DiscardedIffDeleted` | apps/worker/src/worker-app.ts:160-198 | Over every run, as many queue jobs end discarded, which owes a release and no retry, refund or alert, as attempts threw and found the row deleted; a row that is there, or a lookup that fails, discards nothing. |
| `StageEvents.ReleasedEarlyIffForked` | apps/worker/src/worker-app.ts:201-210 | A pipeline job at its end had its slot released while another of its queue jobs was alive if and only if some add landed and threw. |
| `StageEvents.ForkReleasesTwice` | apps/worker/src/worker-app.ts:201-242 | It happens: analyze's add of the render lands and throws on its last attempt; its failure frees the slot while the render is still to run, and finalize frees it again. |
| `StageEvents.WellFormedJobsAlwaysRelease` | apps/worker/src/worker-app.ts:201-242 | With both ids present there are exactly as many releases as endings, and each ending does its release last. |
| `StageEvents.NamelessJobKeepsItsSlot` | apps/worker/src/worker-app.ts:231-232 | A job whose user id is neither a string beside a job id nor truthy is never released. |
| `Checkout.FindFreshFinds` | apps/bot/src/handlers.ts:2354-2364 | The lookup returns the newest pending order of that user and plan less than fifteen minutes old, and nothing if and only if there is none. |
| `Checkout.RunKeepsInv` | apps/bot/src/handlers.ts:2346-2439 | Over every interleaving of taps: one tap per user inside, and orders, remote orders, cancels and locks agree. |
| `Checkout.OrdersAreSpacedLinksRecordedLocksReleased` | apps/bot/src/handlers.ts:2330-2440 | Two orders for one plan are created fifteen minutes apart while the earlier stays pending, every link shown is of a recorded order of the user and plan it is shown for, and no lock outlives its tap. |
| `Checkout.EveryWayOutUnlocks` | apps/bot/src/handlers.ts:2346-2440 | In every run, a tap ends and its user's lock is freed by a throw before the lookup, a creation or an insert that throws, or the edit that shows the link, and by nothing else. |
| `Checkout.UnrecordedOrdersAreCancelledIffAnswered` | apps/bot/src/handlers.ts:2374-2416 | Once no tap is inside, an unrecorded remote order had a cancel attempted if and only if its creation was answered. |
| `Checkout.UnheardOrderStays` | apps/bot/src/handlers.ts:2374-2416 | A reachable case: an order whose creation took effect and threw is neither recorded nor cancelled. |
| `Checkout.RecordedOrdersAreCancelledIffUnheard` | apps/bot/src/handlers.ts:2391-2416 | A recorded order was cancelled at the provider if and only if the insert that stored it threw. |
| `Checkout.CancelledLinkIsShown` | apps/bot/src/handlers.ts:2368-2430 | A reachable case: the link of a cancelled order is shown by the next tap. |
| `MediaGroups.KeyIsInjective` | apps/bot/src/handlers.ts:121-121 | No two (chat, album) pairs share a key, whatever the album id contains. |
| `MediaGroups.ClaimedGroups.Claim` | apps/bot/src/handlers.ts:115-125 | The purge loop and the claim leave exactly the unexpired entries plus the new one, and answer whether the pair was free. |
| `MediaGroups.MapMatchesHistory` | apps/bot/src/handlers.ts:112-125 | For every clock: the map holds exactly what the successful claims wrote that no later claim has seen expired. |
| `MediaGroups.ClaimSucceedsIffUnblocked` | apps/bot/src/handlers.ts:115-125 | For every clock, a claim succeeds if and only if no earlier claim for its pair succeeded with every claim since, this one included, before its expiry. |
| `MediaGroups.ClaimSucceedsIffNoneHolds` | apps/bot/src/handlers.ts:115-125 | Under a clock that does not step back a claim succeeds if and only if none for its pair succeeded within the TTL. |
| `MediaGroups.MapHoldsExactlyTheUnexpired` | apps/bot/src/handlers.ts:117-123 | After each claim the map holds exactly the pairs whose successful claim has not expired. |
| `MediaGroups.BackwardClockAnswersTwice` | apps/bot/src/handlers.ts:116-119 | With a clock that steps back one album is claimed twice. |
| `SupportChat.MergeIsExact` | apps/web/components/support-chat.tsx:23-37 | The server's rows and exactly the unacknowledged optimistic ones, none lost or doubled, in creation order, ties in the order they came. |
| `SupportChat.MergeAbsorbsStalePolls` | apps/web/components/support-chat.tsx:23-37 | Merging an older poll first leaves no trace after a newer one that knows its client ids, if and only if no row of the older poll passes for an optimistic one. |
| `SupportChat.NamedPollsAreAbsorbed` | apps/web/components/support-chat.tsx:23-37 | For the client ids the send route admits, which are never empty, a stale poll always leaves no trace. |
| `SupportChat.MergeIsIdempotent` | apps/web/components/support-chat.tsx:23-37 | Merging the same poll twice is merging it once, on the same exact condition. |
| `SupportChat.MergeKeepsIdsUnique` | apps/web/components/support-chat.tsx:23-37 | Client ids stay unique if and only if not both lists carry an empty one. |
| `SupportChat.NoMessageShownTwice` | apps/web/components/support-chat.tsx:124-157 | However sends, retries, answers, failures and polls interleave, no client id is shown twice. |
| `SupportChat.ClientIdIs` | apps/web/components/support-chat.tsx:18-21 | A row's client id is what stands behind the last colon of its key, if the row came from the user. |
| `SupportChat.SendEndsInItsPlace` | apps/web/components/support-chat.tsx:124-157 | The answer to a send replaces its row and no other, a failure marks that row failed and nothing else, and a retry puts the new row in its place. |
| `SupportChat.AnsweredRowIsShownIffPollIsNewer` | apps/web/components/support-chat.tsx:30-34 | After a poll an answered message is shown if and only if the poll was read after the message was stored. |
| `SupportChat.StalePollDropsAnsweredRow` | apps/web/components/support-chat.tsx:124-157 | A send, its answer and a poll read before both: the message is gone until the next poll. |
| `StableSort.SortIsStable` | apps/web/components/support-chat.tsx:34-36 | Rows of one instant keep their order. |
| `StableSort.SortSorts` | apps/web/components/support-chat.tsx:34-36 | The result is sorted and a permutation. |
| `StableSort.StableSortIsUnique` | apps/web/components/support-chat.tsx:34-36 | Being sorted and stable determines the result, so the sort of the model is the engine's. |
| `Connect4.HeadSplitsTheStream` | docker/warp/connect4.py:57-67 | A successful read splits the stream at its first empty line and loses no byte. |
| `Connect4.ChunkingDoesNotMatter` | docker/warp/connect4.py:57-67 | Two successful reads of one stream agree on the head and on everything after it, however it was cut. |
| `Connect4.ReadHoweverCutIff` | docker/warp/connect4.py:57-67 | A stream is read however it is cut if and only if its head ends a recv before the limit or it fits the limit whole. |
| `Connect4.ReadSomehowIff` | docker/warp/connect4.py:57-67 | A stream is read in some cut if and only if its head and the empty line behind it fit the limit. |
| `Connect4.CutDecides` | docker/warp/connect4.py:57-67 | Every stream between the two conditions is read in one cut and refused in another. |
| `Connect4.FirstObstacle` | docker/warp/connect4.py:57-67 | What is not read is told apart: the peer closed, recv raised or the limit was passed, whichever came first with no empty line before it. |
| `Connect4Relay.ReadHead` | docker/warp/connect4.py:57-67 | The loop over the socket ends as the read function says, having taken no more chunks than it names. |
| `Connect4Relay.Pump` | docker/warp/connect4.py:41-54 | The destination receives an in-order prefix of what the source had left, all of it when no socket errs, and is shut down either way. |
| `Connect4Relay.Tunnel` | docker/warp/connect4.py:76-83 | Bytes read past the head go first, then the rest of the stream, in order. |
| `Connect4Relay.Connect` | docker/warp/connect4.py:57-86 | Section 9.3.6 of RFC 9110: the peer receives an in-order prefix of the bytes after the head, all of them when no socket errs. |
| `AbsoluteForm.RewriteHeaders` | docker/warp/connect4.py:97-111 | The header loop ends as the relation says that the lemmas are about. |
| `AbsoluteForm.StripIs` | docker/warp/connect4.py:99-105 | A stripped text is the one core without spaces at its ends that only spaces surround. |
| `AbsoluteForm.SpaceIs` | docker/warp/connect4.py:99-105 | The twelve characters that count as spaces there. |
| `AbsoluteForm.NameOf` | docker/warp/connect4.py:99-101 | Neither letter case nor spaces around it matter in a header's name, which ends at the first colon. |
| `AbsoluteForm.FirstBadLineDecides` | docker/warp/connect4.py:104-105 | It fails if and only if some content-length has no colon (an IndexError) or a value, behind its first colon and stripped, that the number parser refuses (a ValueError); the first such line decides. |
| `AbsoluteForm.ColonlessLength` | docker/warp/connect4.py:104-105 | A content-length line without a colon raises an IndexError, whatever the number parser does. |
| `AbsoluteForm.RewriteIsExact` | docker/warp/connect4.py:97-111 | Section 7.6.1 of RFC 9110: exactly one connection line, the last, saying close; no proxy-connection and no proxy-authorization; every other header as often as the client sent it, in its order; a Host first if and only if the client sent none. |
| `AbsoluteForm.LastLengthWins` | docker/warp/connect4.py:104-105 | The body length is the number the parser reads in the stripped value of the last content-length. |
| `AbsoluteForm.PlainLength` | docker/warp/connect4.py:104-105 | The line "Content-Length: 5" announces five bytes. |
| `AbsoluteForm.NoLengthMeansZero` | docker/warp/connect4.py:98-105 | Without a content-length no body is waited for. |
| `AbsoluteForm.ReadBody` | docker/warp/connect4.py:113-118 | The body is everything received, in order, at least the declared bytes and less than one recv more; it fails if and only if the client breaks off before that. |
| `IcoWriter.FieldRoundTrip` | apps/web/scripts/gen-icons.js:42-50 | A little-endian field gives its number back if and only if the number is in the field's range. |
| `IcoWriter.FlipInto` | apps/web/scripts/gen-icons.js:32-41 | The nested loops over the buffer leave exactly the flipped and swapped image. |
| `IcoWriter.DibEntry` | apps/web/scripts/gen-icons.js:29-52 | The image is header, bitmap and an all-zero mask if the height and the size of the bitmaps fit their header fields, and an error if and only if they do not. |
| `IcoWriter.EveryPixelIsPlaced` | apps/web/scripts/gen-icons.js:33-41 | The pixel at (x, y) ends at (x, y from the bottom), its bytes as blue, green, red, alpha. |
| `IcoWriter.DibRoundTrip` | apps/web/scripts/gen-icons.js:29-52 | A decoder that checks every header field, reads pixel by pixel by the format and wants a zero mask, independent of the writer, gives every pixel back for sizes up to 256, and the image is 40 + 4s² + 4·ceil(s/32)·s bytes long. |
| `IcoWriter.WriteIco` | apps/web/scripts/gen-icons.js:60-75 | The directory and offset loop writes the file if and only if every number fits its field. |
| `IcoWriter.EntriesTileTheFile` | apps/web/scripts/gen-icons.js:60-75 | The file says it is an icon of as many images as there are; each entry names one plane of 32 bits and the same width and height; entry i's slice is image i, each image begins where the one before it ends, the last ends with the file, and a size reads back if and only if it is between 1 and 256. |
| `IcoWriter.Ico` | apps/web/scripts/gen-icons.js:54-76 | From the rendered buffers to the file: written if and only if every header, directory and entry field fits. |
| `IcoWriter.EveryPictureReadsBack` | apps/web/scripts/gen-icons.js:54-76 | For any number of pictures of 1 to 256 pixels, reading entry i of the file and decoding the image it points at gives the size and the pixels of picture i. |
| `CostTelemetry.PriceAnalysis` | apps/worker/src/cost-telemetry.ts:136-166 | The loop with its early return is the breakdown price if there is a breakdown, and the aggregate price otherwise. |
| `CostTelemetry.MillionTokensCostTheRate` | apps/worker/src/cost-telemetry.ts:147-166 | On either path a million input tokens cost the model's input rate and a million output tokens its output rate. |
| `CostTelemetry.AmountAddsUp` | apps/worker/src/cost-telemetry.ts:147-166 | What is rounded is additive in each count. |
| `CostTelemetry.EntriesAddUp` | apps/worker/src/cost-telemetry.ts:141-149 | Splitting a model's tokens over two entries does not change what they cost. |
| `CostTelemetry.NothingCostsNothing` | apps/worker/src/cost-telemetry.ts:144-154 | Missing and negative counts of a breakdown cost nothing and price nothing. |
| `CostTelemetry.ModelsAddUp` | apps/worker/src/cost-telemetry.ts:141-149 | And across the models of a breakdown. |
| `CostTelemetry.RoundUsdIsClose` | apps/worker/src/cost-telemetry.ts:168-170 | An amount is rounded to the nearest 0.001, upwards from half way. |
| `CostTelemetry.NullExactlyWhen` | apps/worker/src/cost-telemetry.ts:131-154 | The breakdown price is null if and only if some listed model is unpriced or no tokens are left after clamping. |
| `CostTelemetry.OrderDoesNotMatter` | apps/worker/src/cost-telemetry.ts:141-154 | The order in which models are listed never changes the price. |
| `CostTelemetry.SingleCriticAgrees` | apps/worker/src/cost-telemetry.ts:136-166 | When only the configured critic ran, both paths give the same price for counts that are not negative. |
| `CostTelemetry.TotalIsTheSumOfItsLines` | apps/worker/src/cost-telemetry.ts:97-101 | The total is null if either line is, and otherwise the sum of the two rounded lines to the digit, and within 0.001 of the unrounded cost. |
| `UpdateLoop.Poller.Round` | apps/bot/src/index.ts:42-51 | One round of the loop, with a throw at any update, equals the round of the model. |
| `UpdateLoop.HandledIsAPrefix` | apps/bot/src/index.ts:40-53 | The updates handed over are a prefix of the server's: in order, none skipped, none twice. |
| `UpdateLoop.EveryBatchMoves` | apps/bot/src/index.ts:44-47 | A round hands over all of its batch, or up to and including the update whose handler throws; a batch that is not empty moves on. |
| `Callbacks.JoinOfSplit` | apps/bot/src/clip-feedback-keyboard.ts:49-51 | Splitting at colons loses nothing. |
| `Callbacks.VerdictRoundTrip` | apps/bot/src/clip-feedback-keyboard.ts:33-63 | Parsing gives a verdict button's payload back if and only if the clip id is not empty and has no colon. |
| `Callbacks.ReasonRoundTrip` | apps/bot/src/clip-feedback-keyboard.ts:37-63 | The same for reasons. |
| `Callbacks.ReencodeIsExactUnlessInherited` | apps/bot/src/clip-feedback-keyboard.ts:45-63 | Re-encoding what the parser accepts gives the same text if and only if the code is one of the table's own. |
| `Callbacks.InheritedCodeIsAccepted` | apps/bot/src/clip-feedback-keyboard.ts:54-57 | An inherited name is accepted as a code. |
| `Callbacks.DispatchUndoesEncoding` | apps/bot/src/handlers.ts:2178-2258 | Every button's text reaches its own handler and no other, with the payload it was made from. |
| `Callbacks.RoutedIsAButton` | apps/bot/src/handlers.ts:2178-2308 | The other way round: inherited feedback codes excepted, every text that reaches a handler is the text of a button with the payload it is handled with; a plan that is not sold is ignored. |
| `Callbacks.CallbackDataIsInjective` | apps/bot/src/handlers.ts:2264-2308 | Two buttons with the same text are the same button. |

## Left out

- HTTP, Prisma, BullMQ, S3, subprocess, TLS and DNS plumbing: each call is an answer from a script.
- Loss of the owed-write memo at a restart: the delivery properties are stated for one process.
- Outcome messages that reached the chat without a confirmation: the accounts count confirmed ones,
  and a poll after an unconfirmed one may repeat it.
- The order and width (20 rows) of the pickup window: a run may poll any row at any time, which covers every order.
- Clips hidden by retention, captions, error texts, timestamps and message ids of the delivery rows.
- The text and edits of the progress board, the post-clip offer, and the resend of cached clips when a
  user submits a duplicate: separate message paths outside the delivery guard.
- Funnel and conversion events, except that the one before the order lookup may throw (`Checkout.Throw`).
- The concurrency limit that `releaseNextQueued` enforces: only that and when it is called.
- Stalled queue jobs, trim render jobs and the canary's own queue; a parked download is a step that changes nothing.
- Clips that a second render of the same job would add: the delivery model takes the clips of a job that was done
  as final, which holds unless a stage's add landed and threw before.
- The two funnel writes after a pay link is shown: the model frees the lock at the edit, the code a little later.
- The rounding of `cooldownRemainingSec`, `pinnedForSec` and the wall-clock `at` of a rotation's answer.
- The request line and URL splitting of an absolute-form request; Python's `int()` is a parameter.
- The bytes of `Connect4` are characters, as the latin-1 decoding has them; the tunnel's other direction
  is the same `Connect4Relay.Pump`.
- The sockets of a tunnel run one direction at a time: the two pumps share no data, so their interleaving adds nothing.
- Floating point: prices and amounts are exact rationals, creation dates are integers.
- Rendering of the icons: the pixels are any bytes.
- Characters outside ASCII in lower-casing, and the 64-byte limit of callback data.
- DeliverySafety.RunAccounts: bounds messages by the openings so far; that an opening separates every two of them
  needs the condition of DeliveryOpenings.RunAlternates, because the code breaks it otherwise.
- Negative token counts: the readers in apps/worker/src/stages/finalize.ts refuse a breakdown that has one.
- Support rows with an empty client id: the send route admits only UUIDs, so the condition of
  SupportChat.MergeAbsorbsStalePolls is always met there.
- Plan tables, keyboards' labels, the toast reducer and other one-branch helpers: they would only add easy members.
