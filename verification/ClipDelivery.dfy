/** apps/bot/src/clip-delivery.ts: one pass over the clips of a job.

    Everything the outside world answers during the pass (storage, the download,
    Telegram, the clip row) is data in a `ClipEnv`, so a statement over all scripts is a
    statement over all behaviours of those services. */
module ClipDelivery {
  import opened Ascii
  import opened Wrappers

  /** A recorded file id: the column is never written with the empty string. */
  type FileId = s: string | s != "" witness "sent"

  /** What the storage probe answers. */
  datatype Probe =
    | Measured(size: Option<nat>)
    | ProbeFailed(name: string, status: Option<int>)

  /** What becomes of one upload. `Confirmed` and `Refused` are parsed replies; after
      `NoReply` only the chat knows whether the video is there. */
  datatype Upload =
    | NotDownloaded
    | Confirmed(fileId: Option<FileId>)
    | Refused(message: string)
    | NoReply(landed: bool)

  /** The answers one clip meets in one pass. `write` answers whichever clip write is made. */
  datatype ClipEnv = ClipEnv(probe: Probe, upload: Upload, write: Write)

  datatype Reason = NoLongerInStorage | TooLarge(size: nat)

  /** One call of sendVideoUpload, kept as history: what came back of it, and how the write of
      its file id went if it was confirmed. */
  datatype Send =
    | SendRefused
    | SendUnanswered(landed: bool)
    | SendConfirmed(write: Write)

  datatype Clip = Clip(id: string, fileId: Option<FileId>, sendError: Option<Reason>, sends: seq<Send>)

  const NOTHING_ANSWERS := ClipEnv(ProbeFailed("TimeoutError", None), NotDownloaded, Threw("", false))

  /** The answers for the clip at position i; a script that is too short answers with failures. */
  function EnvAt(env: seq<ClipEnv>, i: nat): ClipEnv {
    if i < |env| then env[i] else NOTHING_ANSWERS
  }

  /******* Classifying failures *******/

  const PERMANENT_TELEGRAM_ERRORS: seq<string> := [
    "bot was blocked by the user",
    "bot was kicked",
    "user is deactivated",
    "chat not found",
    "peer_id_invalid",
    "chat_write_forbidden",
    "have no rights to send a message"
  ]

  predicate Includes(haystack: string, needle: string) {
    exists i :: 0 <= i <= |haystack| && OccursAt(haystack, needle, i)
  }

  predicate OccursAt(haystack: string, needle: string, i: nat) {
    i + |needle| <= |haystack| && haystack[i..i + |needle|] == needle
  }

  /** Does the text name the chat as unreachable for good? */
  predicate IsPermanentTelegramError(message: string) {
    exists i :: 0 <= i < |PERMANENT_TELEGRAM_ERRORS| && Includes(ToLower(message), PERMANENT_TELEGRAM_ERRORS[i])
  }

  predicate IsObjectGone(name: string, status: Option<int>) {
    name == "NotFound" || status == Some(404)
  }

  /******* One clip *******/

  /** How one clip left the loop body. */
  datatype Verdict = Skipped | Delivered | Pending | Unsendable | Escaped(message: string)

  datatype Outcome = Outcome(clip: Clip, verdict: Verdict)

  function ClipStep(c: Clip, e: ClipEnv, maxBytes: nat): Outcome {
    if c.fileId.Some? then Outcome(c, Skipped)
    else if c.sendError.Some? then Outcome(c, Unsendable)
    else match e.probe
      case ProbeFailed(name, status) =>
        if IsObjectGone(name, status) then MarkUnsendable(c, NoLongerInStorage, e.write) else Outcome(c, Pending)
      case Measured(size) =>
        if size.Some? && size.value > maxBytes then MarkUnsendable(c, TooLarge(size.value), e.write)
        else UploadStep(c, e)
  }

  /** The write is outside the loop body's try: when it throws, the whole pass does. */
  function MarkUnsendable(c: Clip, reason: Reason, w: Write): Outcome {
    Outcome(if w.Applied() then c.(sendError := Some(reason)) else c,
         if w.Stored? then Unsendable else Escaped(w.message))
  }

  function UploadStep(c: Clip, e: ClipEnv): Outcome {
    match e.upload
    case NotDownloaded => Outcome(c, Pending)
    case Refused(message) =>
      Outcome(c.(sends := c.sends + [SendRefused]),
           if IsPermanentTelegramError(message) then Escaped(message) else Pending)
    case NoReply(landed) => Outcome(c.(sends := c.sends + [SendUnanswered(landed)]), Pending)
    case Confirmed(fileId) =>
      var stored := if fileId.Some? then fileId.value else "sent";
      Outcome(c.(fileId := if e.write.Applied() then Some(stored) else None,
              sends := c.sends + [SendConfirmed(e.write)]),
           if e.write.Stored? then Delivered else Pending)
  }

  /** A clip that is still owed: no file id, no permanent verdict. */
  predicate Owed(c: Clip) {
    c.fileId.None? && c.sendError.None?
  }

  /** An owed clip that can never be sent: its object is gone, or larger than an upload may be. */
  predicate NeedsVerdict(c: Clip, e: ClipEnv, maxBytes: nat) {
    Owed(c) && match e.probe
               case ProbeFailed(name, status) => name == "NotFound" || status == Some(404)
               case Measured(size) => size.Some? && size.value > maxBytes
  }

  /** An owed clip that storage hands over, not known to be too large. */
  predicate Sendable(c: Clip, e: ClipEnv, maxBytes: nat) {
    Owed(c) && !e.upload.NotDownloaded? && e.probe.Measured? && (e.probe.size.Some? ==> e.probe.size.value <= maxBytes)
  }

  lemma SendsOnlyOwedClips(c: Clip, e: ClipEnv, maxBytes: nat)
    ensures !Owed(c) ==> ClipStep(c, e, maxBytes).clip == c
    ensures |ClipStep(c, e, maxBytes).clip.sends| > |c.sends| <==> Sendable(c, e, maxBytes)
  {
  }

  /** The verdict read off the clip row: what each of the five means for the next pass. */
  lemma VerdictMeaning(c: Clip, e: ClipEnv, maxBytes: nat)
    ensures var r := ClipStep(c, e, maxBytes);
            match r.verdict
            case Skipped => c.fileId.Some?
            case Delivered => Owed(c) && r.clip.fileId.Some? && r.clip.sends == c.sends + [SendConfirmed(Stored)]
            case Unsendable => r.clip.fileId.None? && r.clip.sendError.Some? && r.clip.sends == c.sends
            case Pending => Owed(c) && r.clip.sendError.None? &&
                            (r.clip.fileId.Some? ==>
                               r.clip.sends == c.sends + [SendConfirmed(e.write)] && e.write.Threw?)
            case Escaped(m) => Owed(c) && r.clip.fileId.None? &&
                               ((e.upload == Refused(m) && IsPermanentTelegramError(m))
                                || (e.write.Threw? && m == e.write.message && r.clip.sends == c.sends))
  {
  }

  /** What one step leaves of a clip row, on what evidence, in both directions: a permanent verdict for a
      clip that needs one, a file id for Telegram's confirmation, and the history of the upload. */
  predicate Evidenced(c: Clip, after: Clip, e: ClipEnv, maxBytes: nat) {
    && after.id == c.id
    && (after.sendError != c.sendError <==> NeedsVerdict(c, e, maxBytes) && e.write.Applied())
    && (after.sendError != c.sendError ==>
          after.sendError == Some(if e.probe.Measured? then TooLarge(e.probe.size.value) else NoLongerInStorage))
    && (after.fileId != c.fileId <==> Sendable(c, e, maxBytes) && e.upload.Confirmed? && e.write.Applied())
    && (after.fileId != c.fileId ==>
          after.fileId == Some(if e.upload.fileId.Some? then e.upload.fileId.value else "sent"))
    && (Sendable(c, e, maxBytes) <==> after.sends != c.sends)
    && (Sendable(c, e, maxBytes) ==>
          && |after.sends| == |c.sends| + 1 && after.sends[..|c.sends|] == c.sends
          && CameBackAs(e, after.sends[|c.sends|]))
  }

  predicate CameBackAs(e: ClipEnv, s: Send) {
    && (e.upload.Refused? <==> s.SendRefused?)
    && (e.upload.Confirmed? ==> s == SendConfirmed(e.write))
    && (e.upload.NoReply? ==> s == SendUnanswered(e.upload.landed))
  }

  lemma WritesNeedEvidence(c: Clip, e: ClipEnv, maxBytes: nat)
    ensures Evidenced(c, ClipStep(c, e, maxBytes).clip, e, maxBytes)
  {
  }

  /******* What ends a pass *******/

  /** The upload is refused, and the refusal says that nothing will ever reach this chat. */
  predicate ChatRefuses(c: Clip, e: ClipEnv, maxBytes: nat) {
    Sendable(c, e, maxBytes) && e.upload.Refused? && IsPermanentTelegramError(e.upload.message)
  }

  predicate VerdictThrows(c: Clip, e: ClipEnv, maxBytes: nat) {
    NeedsVerdict(c, e, maxBytes) && e.write.Threw?
  }

  predicate Stops(c: Clip, e: ClipEnv, maxBytes: nat) {
    ChatRefuses(c, e, maxBytes) || VerdictThrows(c, e, maxBytes)
  }

  lemma StepStops(c: Clip, e: ClipEnv, maxBytes: nat)
    ensures ClipStep(c, e, maxBytes).verdict.Escaped? <==> Stops(c, e, maxBytes)
    ensures ChatRefuses(c, e, maxBytes) ==> ClipStep(c, e, maxBytes).verdict == Escaped(e.upload.message)
    ensures VerdictThrows(c, e, maxBytes) ==> ClipStep(c, e, maxBytes).verdict == Escaped(e.write.message)
  {
  }

  /** Uploads of the pass that were confirmed and whose write was heard, or threw behind it. */
  predicate Heard(c: Clip, e: ClipEnv, maxBytes: nat) {
    Sendable(c, e, maxBytes) && e.upload.Confirmed? && e.write.Stored?
  }

  predicate Unheard(c: Clip, e: ClipEnv, maxBytes: nat) {
    Sendable(c, e, maxBytes) && e.upload.Confirmed? && e.write.Threw? && e.write.applied
  }

  /** The refusals after which no message can ever reach the chat, wherever in the text they stand. */
  lemma PermanentExactly(message: string)
    ensures var text := ToLower(message);
            IsPermanentTelegramError(message) <==>
            (|| Contains(text, "bot was blocked by the user") || Contains(text, "bot was kicked")
             || Contains(text, "user is deactivated") || Contains(text, "chat not found")
             || Contains(text, "peer_id_invalid") || Contains(text, "chat_write_forbidden")
             || Contains(text, "have no rights to send a message"))
  {
    hide Includes, Contains, ToLower;
    var errors, text := PERMANENT_TELEGRAM_ERRORS, ToLower(message);
    forall i | 0 <= i < |errors|
      ensures Includes(text, errors[i]) <==> Contains(text, errors[i])
    {
      IncludesIsContains(text, errors[i]);
    }
    assert IsPermanentTelegramError(message) <==>
           (|| Includes(text, errors[0]) || Includes(text, errors[1]) || Includes(text, errors[2])
            || Includes(text, errors[3]) || Includes(text, errors[4]) || Includes(text, errors[5])
            || Includes(text, errors[6]));
  }

  ghost predicate Contains(s: string, text: string) {
    exists before: string, after: string :: s == before + text + after
  }

  lemma IncludesIsContains(s: string, text: string)
    ensures Includes(s, text) <==> Contains(s, text)
  {
    if Includes(s, text) {
      var i :| 0 <= i <= |s| && OccursAt(s, text, i);
      assert s == s[..i] + text + s[i + |text|..];
    }
    if Contains(s, text) {
      var before: string, after: string :| s == before + text + after;
      assert OccursAt(s, text, |before|);
    }
  }

  /** Telegram's wording is matched in any case. */
  lemma PermanentIgnoresCase(message: string)
    ensures IsPermanentTelegramError(ToLower(message)) <==> IsPermanentTelegramError(message)
  {
    ToLowerIsIdempotent(message);
  }

  /******* The loop *******/

  /** The counters of ClipDeliveryResult, the clip rows as the pass leaves them, and the message
      of the throw that ended the pass early, if one did. `unheard` counts pending clips whose
      file id was stored by a write that threw. */
  datatype Pass = Pass(clips: seq<Clip>, delivered: nat, pending: nat, unsendable: nat,
                       unheard: nat, escaped: Option<string>)

  function Tally(r: Pass, i: nat, s: Outcome): Pass
    requires i < |r.clips|
  {
    var next := r.(clips := r.clips[i := s.clip]);
    match s.verdict
    case Skipped => next
    case Delivered => next.(delivered := r.delivered + 1)
    case Pending => next.(pending := r.pending + 1, unheard := r.unheard + if s.clip.fileId.Some? then 1 else 0)
    case Unsendable => next.(unsendable := r.unsendable + 1)
    case Escaped(m) => next.(escaped := Some(m))
  }

  /** The pass over the first n clips. */
  function DeliverPrefix(clips: seq<Clip>, env: seq<ClipEnv>, maxBytes: nat, n: nat): (r: Pass)
    requires n <= |clips|
    ensures |r.clips| == |clips|
    ensures r.clips[n..] == clips[n..]
  {
    if n == 0 then Pass(clips, 0, 0, 0, 0, None)
    else
      var r := DeliverPrefix(clips, env, maxBytes, n - 1);
      assert r.clips[n - 1..][1..] == clips[n - 1..][1..];
      if r.escaped.Some? then r else Tally(r, n - 1, ClipStep(clips[n - 1], EnvAt(env, n - 1), maxBytes))
  }

  function DeliverClips(clips: seq<Clip>, env: seq<ClipEnv>, maxBytes: nat): (r: Pass)
    ensures |r.clips| == |clips|
  {
    DeliverPrefix(clips, env, maxBytes, |clips|)
  }

  /******* What a pass does to each clip *******/

  /** One clip's failure costs only itself: whatever happened to the others, every clip of a pass
      that returns got exactly its own step. A pass that throws got that far and no further. */
  lemma {:induction false} EachClipAlone(clips: seq<Clip>, env: seq<ClipEnv>, maxBytes: nat, n: nat, i: nat)
    requires i < n <= |clips|
    ensures var r := DeliverPrefix(clips, env, maxBytes, n);
            && (|| r.clips[i] == ClipStep(clips[i], EnvAt(env, i), maxBytes).clip
                || (r.escaped.Some? && r.clips[i] == clips[i]))
            && (r.escaped.None? ==> r.clips[i] == ClipStep(clips[i], EnvAt(env, i), maxBytes).clip
                                    && !ClipStep(clips[i], EnvAt(env, i), maxBytes).verdict.Escaped?)
  {
    var before := DeliverPrefix(clips, env, maxBytes, n - 1);
    if i < n - 1 {
      EachClipAlone(clips, env, maxBytes, n - 1, i);
    } else {
      assert before.clips[n - 1] == before.clips[n - 1..][0] == clips[n - 1..][0] == clips[i];
    }
  }

  /** The pass stops at clip i: every clip before it let it go on. */
  predicate StopsAt(clips: seq<Clip>, env: seq<ClipEnv>, maxBytes: nat, i: nat)
    requires i < |clips|
  {
    Stops(clips[i], EnvAt(env, i), maxBytes) && forall j: nat :: j < i ==> !Stops(clips[j], EnvAt(env, j), maxBytes)
  }

  predicate ThrewWith(clips: seq<Clip>, env: seq<ClipEnv>, maxBytes: nat, i: nat, message: string)
    requires i < |clips|
  {
    && (ChatRefuses(clips[i], EnvAt(env, i), maxBytes) ==> message == EnvAt(env, i).upload.message)
    && (VerdictThrows(clips[i], EnvAt(env, i), maxBytes) ==> message == EnvAt(env, i).write.message)
  }

  lemma {:induction false} PrefixStops(clips: seq<Clip>, env: seq<ClipEnv>, maxBytes: nat, n: nat)
    requires n <= |clips|
    ensures var r := DeliverPrefix(clips, env, maxBytes, n);
            && (r.escaped.None? <==> forall i: nat :: i < n ==> !Stops(clips[i], EnvAt(env, i), maxBytes))
            && forall i: nat :: i < n && StopsAt(clips, env, maxBytes, i) ==>
                 && r.escaped.Some? && ThrewWith(clips, env, maxBytes, i, r.escaped.value)
                 && r.clips[i + 1..] == clips[i + 1..]
  {
    hide ClipStep, Stops, ChatRefuses, VerdictThrows, EnvAt;
    if n > 0 {
      var before := DeliverPrefix(clips, env, maxBytes, n - 1);
      PrefixStops(clips, env, maxBytes, n - 1);
      StepStops(clips[n - 1], EnvAt(env, n - 1), maxBytes);
      if before.escaped.None? {
        assert DeliverPrefix(clips, env, maxBytes, n).clips[n..] == clips[n..];
      }
    }
  }

  /** A pass throws exactly when some clip stops it: an upload refused because the chat is unreachable for
      good, or a permanent verdict whose write throws. It stops at the first such clip, with its message,
      and leaves every later clip as it was. */
  lemma PassThrowsIff(clips: seq<Clip>, env: seq<ClipEnv>, maxBytes: nat)
    ensures var r := DeliverClips(clips, env, maxBytes);
            && (r.escaped.Some? <==> exists i: nat :: i < |clips| && StopsAt(clips, env, maxBytes, i))
            && (r.escaped.None? ==> forall i: nat :: i < |clips| ==> !Stops(clips[i], EnvAt(env, i), maxBytes))
            && forall i: nat :: i < |clips| && StopsAt(clips, env, maxBytes, i) ==>
                 ThrewWith(clips, env, maxBytes, i, r.escaped.value) && r.clips[i + 1..] == clips[i + 1..]
  {
    hide Stops;
    PrefixStops(clips, env, maxBytes, |clips|);
    if DeliverClips(clips, env, maxBytes).escaped.Some? {
      var i: nat :| i < |clips| && Stops(clips[i], EnvAt(env, i), maxBytes);
      var _ := FirstStop(clips, env, maxBytes, i);
    }
  }

  lemma {:induction false} FirstStop(clips: seq<Clip>, env: seq<ClipEnv>, maxBytes: nat, i: nat) returns (first: nat)
    requires i < |clips| && Stops(clips[i], EnvAt(env, i), maxBytes)
    ensures first <= i && StopsAt(clips, env, maxBytes, first)
  {
    hide Stops;
    if j: nat :| j < i && Stops(clips[j], EnvAt(env, j), maxBytes) {
      first := FirstStop(clips, env, maxBytes, j);
    } else {
      first := i;
    }
  }

  /** Over a whole pass: whatever it writes to a clip row has its evidence, and every clip that it reaches is
      given what its own evidence calls for, whatever happened to the others. */
  lemma PassNeedsEvidence(clips: seq<Clip>, env: seq<ClipEnv>, maxBytes: nat, i: nat)
    requires i < |clips|
    ensures var r := DeliverClips(clips, env, maxBytes);
            if exists j: nat :: j < i && Stops(clips[j], EnvAt(env, j), maxBytes) then r.clips[i] == clips[i]
            else Evidenced(clips[i], r.clips[i], EnvAt(env, i), maxBytes)
  {
    hide Stops, ClipStep, EnvAt, Evidenced;
    PrefixStops(clips, env, maxBytes, i);
    PrefixStops(clips, env, maxBytes, i + 1);
    WritesNeedEvidence(clips[i], EnvAt(env, i), maxBytes);
    PrefixAt(clips, env, maxBytes, |clips|, i);
  }

  /** Clip i is settled one way or the other when the loop has passed it. */
  lemma {:induction false} PrefixAt(clips: seq<Clip>, env: seq<ClipEnv>, maxBytes: nat, n: nat, i: nat)
    requires i < n <= |clips|
    ensures DeliverPrefix(clips, env, maxBytes, n).clips[i]
            == if DeliverPrefix(clips, env, maxBytes, i).escaped.Some? then clips[i]
               else ClipStep(clips[i], EnvAt(env, i), maxBytes).clip
  {
    hide ClipStep, EnvAt;
    if i < n - 1 {
      PrefixAt(clips, env, maxBytes, n - 1, i);
    } else {
      var before := DeliverPrefix(clips, env, maxBytes, i);
      assert before.clips[i] == before.clips[i..][0] == clips[i..][0] == clips[i];
    }
  }

  /** How many of the first n uploads were confirmed with a heard write, and how many with an unheard one
      that reached the row. */
  function CountHeard(clips: seq<Clip>, env: seq<ClipEnv>, maxBytes: nat, n: nat): nat
    requires n <= |clips|
  {
    if n == 0 then 0
    else CountHeard(clips, env, maxBytes, n - 1) + if Heard(clips[n - 1], EnvAt(env, n - 1), maxBytes) then 1 else 0
  }

  function CountUnheard(clips: seq<Clip>, env: seq<ClipEnv>, maxBytes: nat, n: nat): nat
    requires n <= |clips|
  {
    if n == 0 then 0
    else CountUnheard(clips, env, maxBytes, n - 1) + if Unheard(clips[n - 1], EnvAt(env, n - 1), maxBytes) then 1 else 0
  }

  /** What the pass calls delivered is what Telegram confirmed and the row is known to hold. */
  lemma {:induction false} DeliveredMeansHeard(clips: seq<Clip>, env: seq<ClipEnv>, maxBytes: nat, n: nat)
    requires n <= |clips|
    ensures var r := DeliverPrefix(clips, env, maxBytes, n);
            r.escaped.None? ==>
              r.delivered == CountHeard(clips, env, maxBytes, n) && r.unheard == CountUnheard(clips, env, maxBytes, n)
  {
    hide ClipStep, EnvAt, Heard, Unheard;
    if n > 0 {
      DeliveredMeansHeard(clips, env, maxBytes, n - 1);
      StepIsHeard(clips[n - 1], EnvAt(env, n - 1), maxBytes);
    }
  }

  lemma StepIsHeard(c: Clip, e: ClipEnv, maxBytes: nat)
    ensures var s := ClipStep(c, e, maxBytes);
            && (s.verdict.Delivered? <==> Heard(c, e, maxBytes))
            && (s.verdict.Pending? && s.clip.fileId.Some? <==> Unheard(c, e, maxBytes))
  {
  }

  function CountRecorded(clips: seq<Clip>): (k: nat)
    ensures k <= |clips|
  {
    if clips == [] then 0
    else CountRecorded(clips[..|clips| - 1]) + if clips[|clips| - 1].fileId.Some? then 1 else 0
  }

  function CountRefused(clips: seq<Clip>): (k: nat)
    ensures k <= |clips|
  {
    if clips == [] then 0
    else
      var last := clips[|clips| - 1];
      CountRefused(clips[..|clips| - 1]) + if last.fileId.None? && last.sendError.Some? then 1 else 0
  }

  function CountOwed(clips: seq<Clip>): (k: nat)
    ensures k <= |clips|
  {
    if clips == [] then 0
    else CountOwed(clips[..|clips| - 1]) + if Owed(clips[|clips| - 1]) then 1 else 0
  }

  /** The counters of a pass over the first n clips, against those clip rows before and after it. */
  predicate Exact(before: seq<Clip>, r: Pass, n: nat)
    requires n <= |before| == |r.clips|
  {
    && CountRecorded(before[..n]) + r.delivered + r.pending + r.unsendable == n
    && CountRecorded(r.clips[..n]) == CountRecorded(before[..n]) + r.delivered + r.unheard
    && CountRefused(r.clips[..n]) == r.unsendable
    && CountOwed(r.clips[..n]) + r.unheard == r.pending
  }

  lemma CountAppend(clips: seq<Clip>, c: Clip)
    ensures CountRecorded(clips + [c]) == CountRecorded(clips) + if c.fileId.Some? then 1 else 0
    ensures CountRefused(clips + [c]) == CountRefused(clips) + if c.fileId.None? && c.sendError.Some? then 1 else 0
    ensures CountOwed(clips + [c]) == CountOwed(clips) + if Owed(c) then 1 else 0
  {
  }

  /** The counters of a pass that returns are exact: nothing is counted twice and nothing is left out. */
  lemma {:induction false} CountersAreExact(clips: seq<Clip>, env: seq<ClipEnv>, maxBytes: nat, n: nat)
    requires n <= |clips|
    ensures var r := DeliverPrefix(clips, env, maxBytes, n);
            r.escaped.None? ==> Exact(clips, r, n)
  {
    if n > 0 {
      var before := DeliverPrefix(clips, env, maxBytes, n - 1);
      CountersAreExact(clips, env, maxBytes, n - 1);
      if before.escaped.None? {
        var s := ClipStep(clips[n - 1], EnvAt(env, n - 1), maxBytes);
        VerdictMeaning(clips[n - 1], EnvAt(env, n - 1), maxBytes);
        TallyIsExact(clips, before, n - 1, s);
      }
    }
  }

  lemma TallyIsExact(clips: seq<Clip>, before: Pass, i: nat, s: Outcome)
    requires i < |clips| == |before.clips| && Exact(clips, before, i)
    requires match s.verdict
             case Skipped => clips[i].fileId.Some? && s.clip == clips[i]
             case Delivered => Owed(clips[i]) && s.clip.fileId.Some?
             case Unsendable => clips[i].fileId.None? && s.clip.fileId.None? && s.clip.sendError.Some?
             case Pending => Owed(clips[i]) && s.clip.sendError.None?
             case Escaped(_) => true
    ensures !s.verdict.Escaped? ==> Exact(clips, Tally(before, i, s), i + 1)
  {
    var r := Tally(before, i, s);
    assert clips[..i + 1] == clips[..i] + [clips[i]];
    assert r.clips[..i + 1] == before.clips[..i] + [s.clip];
    CountAppend(clips[..i], clips[i]);
    CountAppend(before.clips[..i], s.clip);
  }

  lemma {:induction false} AllRecordedByCount(clips: seq<Clip>)
    ensures CountRecorded(clips) == |clips| <==> forall i :: 0 <= i < |clips| ==> clips[i].fileId.Some?
  {
    if clips != [] {
      var init := clips[..|clips| - 1];
      AllRecordedByCount(init);
      assert forall i :: 0 <= i < |init| ==> init[i] == clips[i];
    }
  }

  /******* Copies in the chat *******/

  /** The video is in the chat. */
  predicate Landed(s: Send) {
    s.SendConfirmed? || (s.SendUnanswered? && s.landed)
  }

  /** The row was given the file id. */
  predicate Recorded(s: Send) {
    s.SendConfirmed? && s.write.Applied()
  }

  /** A clip's history as every pass leaves it: only the last upload can have been recorded, and it
      was if and only if the row carries a file id. */
  predicate ClipInv(c: Clip) {
    && (forall i :: 0 <= i < |c.sends| - 1 ==> !Recorded(c.sends[i]))
    && (c.fileId.Some? <==> |c.sends| > 0 && Recorded(c.sends[|c.sends| - 1]))
  }

  function Copies(sends: seq<Send>): nat {
    if sends == [] then 0 else Copies(sends[..|sends| - 1]) + if Landed(sends[|sends| - 1]) then 1 else 0
  }

  /** Uploads that came back without a parsed reply, so that they may or may not have landed. */
  function Unanswered(sends: seq<Send>): nat {
    if sends == [] then 0 else Unanswered(sends[..|sends| - 1]) + if sends[|sends| - 1].SendUnanswered? then 1 else 0
  }

  /** The unanswered uploads that never arrived. */
  function Vanished(sends: seq<Send>): (n: nat)
    ensures n <= Unanswered(sends)
  {
    if sends == [] then 0
    else Vanished(sends[..|sends| - 1]) + if sends[|sends| - 1] == SendUnanswered(false) then 1 else 0
  }

  /** Confirmed uploads whose file id was lost, because its write threw without reaching the row. */
  function Forgotten(sends: seq<Send>): nat {
    if sends == [] then 0
    else
      var last := sends[|sends| - 1];
      Forgotten(sends[..|sends| - 1]) + if last.SendConfirmed? && !last.write.Applied() then 1 else 0
  }

  /** A step keeps the history, and leaves a clip that is not owed as it is. */
  lemma StepKeepsClipInv(c: Clip, e: ClipEnv, maxBytes: nat)
    requires ClipInv(c)
    ensures ClipInv(ClipStep(c, e, maxBytes).clip)
    ensures !Owed(c) ==> ClipStep(c, e, maxBytes).clip == c
  {
    SendsOnlyOwedClips(c, e, maxBytes);
  }

  lemma {:induction false} CopiesWithoutRecord(sends: seq<Send>)
    requires forall i :: 0 <= i < |sends| ==> !Recorded(sends[i])
    ensures Copies(sends) + Vanished(sends) == Unanswered(sends) + Forgotten(sends)
  {
    if sends != [] {
      CopiesWithoutRecord(sends[..|sends| - 1]);
    }
  }

  /** The copies of a clip in the chat, by what its uploads came back with: the one the row records, those
      without a reply that landed all the same, and those confirmed but not stored. A refused upload never
      adds one. */
  predicate CopiesAreAccounted(c: Clip) {
    Copies(c.sends) + Vanished(c.sends)
    == Unanswered(c.sends) + Forgotten(c.sends) + if c.fileId.Some? then 1 else 0
  }

  lemma CopiesAreBounded(c: Clip)
    requires ClipInv(c)
    ensures CopiesAreAccounted(c)
    ensures Copies(c.sends) <= Unanswered(c.sends) + Forgotten(c.sends) + 1
  {
    if c.sends != [] {
      CopiesWithoutRecord(c.sends[..|c.sends| - 1]);
    }
  }

  predicate ClipsInv(clips: seq<Clip>) {
    forall i :: 0 <= i < |clips| ==> ClipInv(clips[i])
  }

  /** A pass, returning or throwing, keeps every clip's history and touches no clip that is recorded or
      refused for good. */
  lemma PassKeepsClips(clips: seq<Clip>, env: seq<ClipEnv>, maxBytes: nat)
    requires ClipsInv(clips)
    ensures ClipsInv(DeliverClips(clips, env, maxBytes).clips)
    ensures forall i :: 0 <= i < |clips| && !Owed(clips[i]) ==>
      DeliverClips(clips, env, maxBytes).clips[i] == clips[i]
  {
    forall i | 0 <= i < |clips|
      ensures ClipInv(DeliverClips(clips, env, maxBytes).clips[i])
      ensures !Owed(clips[i]) ==> DeliverClips(clips, env, maxBytes).clips[i] == clips[i]
    {
      EachClipAlone(clips, env, maxBytes, |clips|, i);
      StepKeepsClipInv(clips[i], EnvAt(env, i), maxBytes);
    }
  }
}
