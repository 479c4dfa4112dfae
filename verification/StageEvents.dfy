/** apps/worker/src/worker-app.ts: what the stage workers do to a user's queue slot, over the whole
    life of one pipeline job. */
module StageEvents {
  import opened Counting
  import opened Wrappers

  datatype Stage = Download | Transcribe | Analyze | Render | Finalize

  /** A field of a queue job's data as JavaScript finds it. */
  datatype Field = Absent | Text(text: string) | Other(truthy: bool)

  /** A queue job's data. `Nothing` is null or undefined; an array has no fields of interest. */
  datatype Data =
    | Canary
    | Nothing
    | NotAnObject
    | Fields(jobId: Field, userId: Field)

  datatype Effect =
    | Release(user: Field)
    | Refund(userId: string, jobId: string)
    | Alert(stage: Stage, attemptsMade: nat)

  datatype Failure = Unrecoverable | Retriable

  /** What the lookup of the pipeline job's row answers. */
  datatype RowCheck = RowPresent | RowDeleted | LookupFailed

  /** How one attempt of a stage goes. A successful stage has put the next one on its queue; the
      analysis of a video without clips skips the render. An attempt that throws may have got that far
      too: the add is the last thing a stage does, and one that throws may have landed; `added` is then
      the choice it made about the render. A parked download changes nothing. */
  datatype Outcome =
    | Succeeds(skipRender: bool)
    | Throws(failure: Failure, row: RowCheck, added: Option<bool>)
    | Parks

  /******* The handlers *******/

  predicate Truthy(f: Field) {
    match f
    case Absent => false
    case Text(s) => s != ""
    case Other(truthy) => truthy
  }

  /** The read is of a job BullMQ has already charged with the failed attempt. */
  predicate IsTerminalFailure(attemptsMade: nat, attempts: Option<nat>, failure: Failure) {
    failure.Unrecoverable? || attemptsMade >= (if attempts.Some? then attempts.value else 1)
  }

  /** Does the data name a user the handlers can release? Any truthy value is passed on. */
  predicate NamesUser(data: Data) {
    data.Fields? && Truthy(data.userId)
  }

  /** Both ids are strings. */
  predicate NamesJob(data: Data) {
    data.Fields? && data.userId.Text? && data.jobId.Text?
  }

  /** maybeReleaseAfterStageEvent. */
  function ReleaseFor(data: Data): seq<Effect> {
    if NamesUser(data) then [Release(data.userId)] else []
  }

  function RefundFor(data: Data): seq<Effect> {
    if NamesJob(data) then [Refund(data.userId.text, data.jobId.text)] else []
  }

  function AlertFor(stage: Stage, attemptsMade: nat, failure: Failure): seq<Effect> {
    if failure.Unrecoverable? then [] else [Alert(stage, attemptsMade)]
  }

  function OnCompleted(role: Stage, data: Data): seq<Effect> {
    if data.Canary? || role != Finalize then [] else ReleaseFor(data)
  }

  /** Reading a field of null throws out of the listener before anything is done. */
  function OnFailed(role: Stage, data: Data, attemptsMade: nat, attempts: Option<nat>, failure: Failure): seq<Effect> {
    if data.Canary? || data.Nothing? || !IsTerminalFailure(attemptsMade, attempts, failure) then []
    else RefundFor(data) + AlertFor(role, attemptsMade, failure) + ReleaseFor(data)
  }

  /** dispatchStageJob's catch: is the failure swallowed because the pipeline job is gone? */
  predicate Discards(data: Data, row: RowCheck) {
    NamesJob(data) && row.RowDeleted?
  }

  /******* One pipeline job *******/

  datatype Ending = Finished | Failed(failure: Failure) | Discarded

  /** A queue job that will run (again). */
  datatype Live = Live(stage: Stage, attemptsMade: nat)

  /** The queue jobs of one pipeline job that are still alive, how the others ended, what was done
      about it, and how many extra ones an add that landed and threw has put on a queue. */
  datatype Pipeline = Pipeline(live: seq<Live>, endings: seq<Ending>, effects: seq<Effect>, forks: nat)

  /** BullMQ's own rule for a failed attempt, stated apart from the handler's. */
  predicate WillRetry(attemptsMade: nat, attempts: Option<nat>, failure: Failure) {
    failure.Retriable? && attempts.Some? && attemptsMade < attempts.value
  }

  function NextStage(stage: Stage, skipRender: bool): Option<Stage> {
    match stage
    case Download => Some(Transcribe)
    case Transcribe => Some(Analyze)
    case Analyze => Some(if skipRender then Finalize else Render)
    case Render => Some(Finalize)
    case Finalize => None
  }

  function End(p: Pipeline, i: nat, ending: Ending, effects: seq<Effect>): Pipeline
    requires i < |p.live|
  {
    p.(live := p.live[..i] + p.live[i + 1..], endings := p.endings + [ending], effects := p.effects + effects)
  }

  function Failing(p: Pipeline, i: nat, data: Data, budget: Stage -> Option<nat>, failure: Failure): Pipeline
    requires i < |p.live|
  {
    var stage, made := p.live[i].stage, p.live[i].attemptsMade + 1;
    if WillRetry(made, budget(stage), failure) then p.(live := p.live[i := Live(stage, made)])
    else End(p, i, Failed(failure), OnFailed(stage, data, made, budget(stage), failure))
  }

  /** The next stage is on its queue although this attempt throws. */
  function Fork(p: Pipeline, i: nat, added: Option<bool>): Pipeline
    requires i < |p.live|
  {
    if added.None? || NextStage(p.live[i].stage, added.value).None? then p
    else p.(live := p.live + [Live(NextStage(p.live[i].stage, added.value).value, 0)], forks := p.forks + 1)
  }

  /** One attempt of the i-th live queue job. A canary that strays onto a production queue is refused
      before it is dispatched. */
  function Attempt(p: Pipeline, i: nat, data: Data, budget: Stage -> Option<nat>, o: Outcome): Pipeline
    requires i < |p.live|
  {
    var stage := p.live[i].stage;
    if data.Canary? then Failing(p, i, data, budget, Retriable)
    else match o
      case Parks => p
      case Succeeds(skipRender) =>
        if NextStage(stage, skipRender).None? then End(p, i, Finished, OnCompleted(stage, data))
        else
          var next := Live(NextStage(stage, skipRender).value, 0);
          p.(live := p.live[i := next], effects := p.effects + OnCompleted(stage, data))
      case Throws(failure, row, added) =>
        var forked := Fork(p, i, added);
        if Discards(data, row) then End(forked, i, Discarded, [Release(data.userId)])
        else Failing(forked, i, data, budget, failure)
  }

  /** One turn: which of the live queue jobs runs, and how it goes. */
  datatype Turn = Turn(who: nat, outcome: Outcome)

  function Next(p: Pipeline, data: Data, budget: Stage -> Option<nat>, t: Turn): Pipeline {
    if t.who < |p.live| then Attempt(p, t.who, data, budget, t.outcome) else p
  }

  function Run(data: Data, budget: Stage -> Option<nat>, turns: seq<Turn>): Pipeline {
    if turns == [] then Pipeline([Live(Download, 0)], [], [], 0)
    else Next(Run(data, budget, turns[..|turns| - 1]), data, budget, turns[|turns| - 1])
  }

  /******* What an ending does *******/

  /** The handler and the queue agree on which failure is the last one, for every budget. */
  lemma TerminalExactlyWhenNotRetried(attemptsMade: nat, attempts: Option<nat>, failure: Failure)
    requires attemptsMade > 0
    ensures IsTerminalFailure(attemptsMade, attempts, failure) <==> !WillRetry(attemptsMade, attempts, failure)
  {
  }

  datatype Kind = KRelease | KRefund | KAlert

  function OfKind(k: Kind): Effect -> bool {
    (e: Effect) => match k
      case KRelease => e.Release?
      case KRefund => e.Refund?
      case KAlert => e.Alert?
  }

  function B(b: bool): nat {
    if b then 1 else 0
  }

  /** How many effects of a kind an ending has: the slot is released whenever the data names a user, the
      job refunded if and only if it failed, and the incident reported if and only if that failure was
      not an unrecoverable one. */
  function Owes(data: Data, ending: Ending, k: Kind): nat {
    match k
    case KRelease =>
      B(data.Fields? && if ending.Discarded? then data.userId.Text? && data.jobId.Text?
                        else data.userId !in {Absent, Text(""), Other(false)})
    case KRefund => B(ending.Failed? && data.Fields? && data.userId.Text? && data.jobId.Text?)
    case KAlert => B(ending.Failed? && ending.failure.Retriable? && !data.Canary? && !data.Nothing?)
  }

  function Owed(data: Data, endings: seq<Ending>, k: Kind): nat {
    if endings == [] then 0 else Owed(data, endings[..|endings| - 1], k) + Owes(data, endings[|endings| - 1], k)
  }

  /** Every release and refund goes to the job and user the data names, and every alert names a stage that
      has used its attempts up, and how many. */
  predicate RightOwner(data: Data, budget: Stage -> Option<nat>, effects: seq<Effect>) {
    forall i :: 0 <= i < |effects| ==>
      match effects[i]
      case Release(user) => data.Fields? && data.userId == user
      case Refund(userId, jobId) => data.Fields? && data.userId == Text(userId) && data.jobId == Text(jobId)
      case Alert(stage, made) => made > 0 && made >= (if budget(stage).Some? then budget(stage).value else 1)
  }

  /** The effects of one ending, up to their order; a release, if there is one, comes last. */
  predicate EndsWell(data: Data, budget: Stage -> Option<nat>, ending: Ending, effects: seq<Effect>) {
    && (forall k :: Count(OfKind(k), effects) == Owes(data, ending, k))
    && RightOwner(data, budget, effects)
    && (Owes(data, ending, KRelease) == 1 ==> effects != [] && effects[|effects| - 1].Release?)
  }

  lemma OneOfKind(k: Kind, e: Effect)
    ensures Count(OfKind(k), [e]) == B(OfKind(k)(e))
  {
    CountOne(OfKind(k), e);
  }

  lemma ThreeParts(data: Data, stage: Stage, made: nat, failure: Failure, k: Kind)
    ensures Count(OfKind(k), RefundFor(data)) == B(k.KRefund? && NamesJob(data))
    ensures Count(OfKind(k), AlertFor(stage, made, failure)) == B(k.KAlert? && failure.Retriable?)
    ensures Count(OfKind(k), ReleaseFor(data)) == B(k.KRelease? && NamesUser(data))
  {
    if NamesJob(data) { OneOfKind(k, RefundFor(data)[0]); }
    if failure.Retriable? { OneOfKind(k, Alert(stage, made)); }
    if NamesUser(data) { OneOfKind(k, Release(data.userId)); }
  }

  lemma CountThree(a: seq<Effect>, b: seq<Effect>, c: seq<Effect>, k: Kind)
    ensures Count(OfKind(k), a + b + c) == Count(OfKind(k), a) + Count(OfKind(k), b) + Count(OfKind(k), c)
  {
    CountConcat(OfKind(k), a + b, c);
    CountConcat(OfKind(k), a, b);
  }

  lemma ThreeCounts(data: Data, stage: Stage, made: nat, failure: Failure, k: Kind)
    ensures Count(OfKind(k), RefundFor(data) + AlertFor(stage, made, failure) + ReleaseFor(data))
            == B(k.KRefund? && NamesJob(data)) + B(k.KAlert? && failure.Retriable?) + B(k.KRelease? && NamesUser(data))
  {
    hide RefundFor, AlertFor, ReleaseFor, OfKind;
    ThreeParts(data, stage, made, failure, k);
    CountThree(RefundFor(data), AlertFor(stage, made, failure), ReleaseFor(data), k);
  }

  lemma NoneOfKind(k: Kind)
    ensures Count(OfKind(k), []) == 0
  {
  }

  lemma ThreeOwners(data: Data, budget: Stage -> Option<nat>, stage: Stage, made: nat, failure: Failure)
    requires made > 0 && !WillRetry(made, budget(stage), failure)
    ensures RightOwner(data, budget, RefundFor(data) + AlertFor(stage, made, failure) + ReleaseFor(data))
  {
  }

  lemma FailedEndsWell(stage: Stage, data: Data, made: nat, budget: Stage -> Option<nat>, failure: Failure)
    requires made > 0 && !WillRetry(made, budget(stage), failure)
    ensures EndsWell(data, budget, Failed(failure), OnFailed(stage, data, made, budget(stage), failure))
  {
    hide OfKind, Count, RefundFor, AlertFor, RightOwner;
    TerminalExactlyWhenNotRetried(made, budget(stage), failure);
    var effects := OnFailed(stage, data, made, budget(stage), failure);
    ThreeOwners(data, budget, stage, made, failure);
    assert RightOwner(data, budget, []) by { NobodysEffects(data, budget); }
    forall k
      ensures Count(OfKind(k), effects) == Owes(data, Failed(failure), k)
    {
      NoneOfKind(k);
      ThreeCounts(data, stage, made, failure, k);
    }
  }

  lemma NobodysEffects(data: Data, budget: Stage -> Option<nat>)
    ensures RightOwner(data, budget, [])
  {
  }

  lemma FinishedEndsWell(data: Data, budget: Stage -> Option<nat>)
    ensures EndsWell(data, budget, Finished, OnCompleted(Finalize, data))
  {
    forall k
      ensures Count(OfKind(k), OnCompleted(Finalize, data)) == Owes(data, Finished, k)
    {
      ThreeParts(data, Finalize, 0, Unrecoverable, k);
    }
  }

  lemma DiscardedEndsWell(data: Data, budget: Stage -> Option<nat>)
    requires NamesJob(data)
    ensures EndsWell(data, budget, Discarded, [Release(data.userId)])
  {
    forall k
      ensures Count(OfKind(k), [Release(data.userId)]) == Owes(data, Discarded, k)
    {
      OneOfKind(k, Release(data.userId));
    }
  }

  /******* Every run *******/

  /** Every queue job beyond the first came from a fork, and the effects are what the endings owe. */
  predicate Balanced(data: Data, budget: Stage -> Option<nat>, p: Pipeline) {
    && |p.live| + |p.endings| == 1 + p.forks
    && (forall k :: Count(OfKind(k), p.effects) == Owed(data, p.endings, k))
    && RightOwner(data, budget, p.effects)
    && (p.endings == [] ==> p.effects == [])
  }

  lemma EndBalances(p: Pipeline, i: nat, data: Data, budget: Stage -> Option<nat>, ending: Ending,
                    effects: seq<Effect>)
    requires i < |p.live| && Balanced(data, budget, p) && EndsWell(data, budget, ending, effects)
    ensures Balanced(data, budget, End(p, i, ending, effects))
  {
    var q := End(p, i, ending, effects);
    assert q.endings[..|p.endings|] == p.endings;
    forall k
      ensures Count(OfKind(k), q.effects) == Owed(data, q.endings, k)
    {
      CountConcat(OfKind(k), p.effects, effects);
    }
  }

  lemma FailingBalances(p: Pipeline, i: nat, data: Data, budget: Stage -> Option<nat>, failure: Failure)
    requires i < |p.live| && Balanced(data, budget, p)
    ensures Balanced(data, budget, Failing(p, i, data, budget, failure))
  {
    var stage, made := p.live[i].stage, p.live[i].attemptsMade + 1;
    if !WillRetry(made, budget(stage), failure) {
      FailedEndsWell(stage, data, made, budget, failure);
      EndBalances(p, i, data, budget, Failed(failure), OnFailed(stage, data, made, budget(stage), failure));
    }
  }

  lemma AttemptBalances(p: Pipeline, i: nat, data: Data, budget: Stage -> Option<nat>, o: Outcome)
    requires i < |p.live| && Balanced(data, budget, p)
    ensures Balanced(data, budget, Attempt(p, i, data, budget, o))
  {
    hide EndsWell, Failing, End;
    if data.Canary? {
      FailingBalances(p, i, data, budget, Retriable);
    } else {
      match o {
        case Parks =>
        case Succeeds(skipRender) =>
          if p.live[i].stage == Finalize {
            FinishedEndsWell(data, budget);
            EndBalances(p, i, data, budget, Finished, OnCompleted(Finalize, data));
          } else {
            assert p.effects + [] == p.effects;
          }
        case Throws(failure, row, added) =>
          var forked := Fork(p, i, added);
          assert Balanced(data, budget, forked);
          if Discards(data, row) {
            DiscardedEndsWell(data, budget);
            EndBalances(forked, i, data, budget, Discarded, [Release(data.userId)]);
          } else {
            FailingBalances(forked, i, data, budget, failure);
          }
      }
    }
  }

  /** In every run of one pipeline job, forks included: each queue job that ends releases the slot of the
      user it names once, refunds if and only if it failed for good, and reports if and only if that
      failure was not an unrecoverable one; nothing else does anything; and as many queue jobs end or
      are alive as adds have put on a queue. */
  lemma {:induction false} EveryEndingIsSettledOnce(data: Data, budget: Stage -> Option<nat>, turns: seq<Turn>)
    ensures Balanced(data, budget, Run(data, budget, turns))
  {
    if turns != [] {
      var p, t := Run(data, budget, turns[..|turns| - 1]), turns[|turns| - 1];
      EveryEndingIsSettledOnce(data, budget, turns[..|turns| - 1]);
      if t.who < |p.live| {
        AttemptBalances(p, t.who, data, budget, t.outcome);
      }
    }
  }

  predicate SettledOnce(data: Data, budget: Stage -> Option<nat>, p: Pipeline) {
    if p.live != [] then p.effects == []
    else |p.endings| == 1 && RightOwner(data, budget, p.effects)
         && forall k :: Count(OfKind(k), p.effects) == Owes(data, p.endings[0], k)
  }

  lemma UnforkedIsSettledOnce(data: Data, budget: Stage -> Option<nat>, p: Pipeline)
    requires Balanced(data, budget, p) && p.forks == 0
    ensures SettledOnce(data, budget, p)
  {
    if p.live == [] {
      assert p.endings == [p.endings[0]] && p.endings[..0] == [];
      forall k
        ensures Count(OfKind(k), p.effects) == Owes(data, p.endings[0], k)
      {
        assert Owed(data, p.endings, k) == Owed(data, p.endings[..0], k) + Owes(data, p.endings[0], k);
      }
    }
  }

  /** While no add has landed and thrown: nothing is released, refunded or reported while an attempt or
      stage can still run, and once none can, there is one ending and its effects. */
  lemma SlotIsFreedOnceAtTheEnd(data: Data, budget: Stage -> Option<nat>, turns: seq<Turn>)
    requires Run(data, budget, turns).forks == 0
    ensures SettledOnce(data, budget, Run(data, budget, turns))
  {
    EveryEndingIsSettledOnce(data, budget, turns);
    UnforkedIsSettledOnce(data, budget, Run(data, budget, turns));
  }

  /******* The exact condition *******/

  /** The data every producer writes: both ids present, the user's not empty. */
  predicate WellFormed(data: Data) {
    NamesJob(data) && NamesUser(data)
  }

  lemma {:induction false} EachReleases(data: Data, endings: seq<Ending>)
    requires WellFormed(data)
    ensures Owed(data, endings, KRelease) == |endings|
  {
    if endings != [] {
      EachReleases(data, endings[..|endings| - 1]);
    }
  }

  /** The slot was released while a queue job of the pipeline was still alive. */
  predicate ReleasedEarly(p: Pipeline) {
    p.live != [] && Count(OfKind(KRelease), p.effects) > 0
  }

  lemma StepShrinks(p: Pipeline, data: Data, budget: Stage -> Option<nat>, t: Turn)
    ensures var q := Next(p, data, budget, t);
            p.forks <= q.forks && (q.live == [] ==> |p.live| <= 1 && q.forks == p.forks)
  {
  }

  lemma {:induction false} ForksGrow(data: Data, budget: Stage -> Option<nat>, turns: seq<Turn>, n: nat)
    requires n <= |turns|
    ensures Run(data, budget, turns[..n]).forks <= Run(data, budget, turns).forks
  {
    hide Next;
    if n == |turns| {
      assert turns[..n] == turns;
    } else {
      var front := turns[..|turns| - 1];
      ForksGrow(data, budget, front, n);
      assert front[..n] == turns[..n];
      StepShrinks(Run(data, budget, front), data, budget, turns[|turns| - 1]);
    }
  }

  /** The last moment at which something was alive: one queue job, with every fork behind it. */
  lemma {:induction false} LastAlive(data: Data, budget: Stage -> Option<nat>, turns: seq<Turn>) returns (n: nat)
    requires Run(data, budget, turns).live == []
    ensures n <= |turns|
    ensures var p := Run(data, budget, turns[..n]);
            |p.live| == 1 && p.forks == Run(data, budget, turns).forks
  {
    hide Next;
    var front := turns[..|turns| - 1];
    StepShrinks(Run(data, budget, front), data, budget, turns[|turns| - 1]);
    if Run(data, budget, front).live == [] {
      n := LastAlive(data, budget, front);
      assert front[..n] == turns[..n];
    } else {
      n := |front|;
    }
  }

  /** A pipeline job that has come to its end had its slot freed while another of its queue jobs was
      still alive if and only if some add landed and threw. */
  lemma ReleasedEarlyIffForked(data: Data, budget: Stage -> Option<nat>, turns: seq<Turn>)
    requires WellFormed(data) && Run(data, budget, turns).live == []
    ensures (exists n :: 0 <= n <= |turns| && ReleasedEarly(Run(data, budget, turns[..n])))
            <==> Run(data, budget, turns).forks > 0
  {
    hide Run;
    if n :| 0 <= n <= |turns| && ReleasedEarly(Run(data, budget, turns[..n])) {
      var p := Run(data, budget, turns[..n]);
      EveryEndingIsSettledOnce(data, budget, turns[..n]);
      EachReleases(data, p.endings);
      ForksGrow(data, budget, turns, n);
    }
    if Run(data, budget, turns).forks > 0 {
      var n := LastAlive(data, budget, turns);
      var p := Run(data, budget, turns[..n]);
      EveryEndingIsSettledOnce(data, budget, turns[..n]);
      EachReleases(data, p.endings);
      assert ReleasedEarly(p);
    }
  }

  /** With both ids present there are exactly as many releases as endings, and each ending's release is
      the last thing it does. */
  lemma {:induction false} WellFormedJobsAlwaysRelease(data: Data, budget: Stage -> Option<nat>, turns: seq<Turn>)
    requires WellFormed(data)
    ensures var p := Run(data, budget, turns);
            && Count(OfKind(KRelease), p.effects) == |p.endings|
            && (p.endings != [] <==> p.effects != [] && p.effects[|p.effects| - 1] == Release(data.userId))
  {
    EveryEndingIsSettledOnce(data, budget, turns);
    EachReleases(data, Run(data, budget, turns).endings);
    ReleaseIsLast(data, budget, turns);
  }

  predicate LastIsRelease(data: Data, p: Pipeline) {
    if p.endings == [] then p.effects == []
    else data.Fields? && p.effects != [] && p.effects[|p.effects| - 1] == Release(data.userId)
  }

  lemma FailedReleasesLast(stage: Stage, data: Data, made: nat, attempts: Option<nat>, failure: Failure)
    requires WellFormed(data) && made > 0 && !WillRetry(made, attempts, failure)
    ensures var e := OnFailed(stage, data, made, attempts, failure);
            e != [] && e[|e| - 1] == Release(data.userId)
  {
    TerminalExactlyWhenNotRetried(made, attempts, failure);
  }

  lemma AttemptReleasesLast(p: Pipeline, i: nat, data: Data, budget: Stage -> Option<nat>, o: Outcome)
    requires i < |p.live| && WellFormed(data) && LastIsRelease(data, p)
    ensures LastIsRelease(data, Attempt(p, i, data, budget, o))
  {
    hide OnFailed;
    if o.Throws? {
      var forked := Fork(p, i, o.added);
      var stage, made := forked.live[i].stage, forked.live[i].attemptsMade + 1;
      if !WillRetry(made, budget(stage), o.failure) {
        FailedReleasesLast(stage, data, made, budget(stage), o.failure);
      }
    }
  }

  lemma {:induction false} ReleaseIsLast(data: Data, budget: Stage -> Option<nat>, turns: seq<Turn>)
    requires WellFormed(data)
    ensures LastIsRelease(data, Run(data, budget, turns))
  {
    hide Attempt, LastIsRelease;
    if turns == [] {
      assert LastIsRelease(data, Pipeline([Live(Download, 0)], [], [], 0)) by { EmptyIsFine(data); }
    } else {
      var p, t := Run(data, budget, turns[..|turns| - 1]), turns[|turns| - 1];
      ReleaseIsLast(data, budget, turns[..|turns| - 1]);
      if t.who < |p.live| {
        AttemptReleasesLast(p, t.who, data, budget, t.outcome);
      }
    }
  }

  lemma EmptyIsFine(data: Data)
    ensures LastIsRelease(data, Pipeline([Live(Download, 0)], [], [], 0))
  {
  }

  /** A job whose data names no user keeps its slot for ever: it ends and nothing is released. */
  lemma NamelessJobKeepsItsSlot(data: Data, budget: Stage -> Option<nat>, turns: seq<Turn>)
    requires !NamesUser(data) && !NamesJob(data)
    ensures Count(OfKind(KRelease), Run(data, budget, turns).effects) == 0
  {
    EveryEndingIsSettledOnce(data, budget, turns);
    NobodyOwed(data, Run(data, budget, turns).endings);
  }

  lemma {:induction false} NobodyOwed(data: Data, endings: seq<Ending>)
    requires !NamesUser(data) && !NamesJob(data)
    ensures Owed(data, endings, KRelease) == 0
  {
    if endings != [] {
      NobodyOwed(data, endings[..|endings| - 1]);
    }
  }

  /******* Every job ends *******/

  /** Attempts a queue job of this stage can have. */
  function Cap(budget: Stage -> Option<nat>, stage: Stage): nat {
    if budget(stage).Some? && budget(stage).value > 1 then budget(stage).value else 1
  }

  /** Attempts the stages behind this one can have. */
  function Behind(budget: Stage -> Option<nat>, stage: Stage): nat {
    match stage
    case Download => Cap(budget, Transcribe) + Cap(budget, Analyze) + Cap(budget, Render) + Cap(budget, Finalize)
    case Transcribe => Cap(budget, Analyze) + Cap(budget, Render) + Cap(budget, Finalize)
    case Analyze => Cap(budget, Render) + Cap(budget, Finalize)
    case Render => Cap(budget, Finalize)
    case Finalize => 0
  }

  /** Attempts left to a pipeline job in the stage its one queue job is in, and behind it. */
  predicate HasLeft(budget: Stage -> Option<nat>, p: Pipeline, left: int) {
    if p.live == [] then left >= 0
    else
      var l := p.live[0];
      |p.live| == 1 && l.attemptsMade < Cap(budget, l.stage)
      && Cap(budget, l.stage) - l.attemptsMade + Behind(budget, l.stage) <= left
  }

  lemma TurnUsesAnAttempt(p: Pipeline, data: Data, budget: Stage -> Option<nat>, t: Turn, left: int)
    requires HasLeft(budget, p, left) && Next(p, data, budget, t).forks == p.forks
    ensures HasLeft(budget, Next(p, data, budget, t),
                    left - B(t.who < |p.live| && (data.Canary? || !t.outcome.Parks?)))
  {
    hide OnFailed, OnCompleted, Discards;
  }

  /** How many of the turns were attempts of a live queue job, other than parked downloads. */
  function Attempts(data: Data, budget: Stage -> Option<nat>, turns: seq<Turn>): nat {
    if turns == [] then 0
    else
      var front, t := turns[..|turns| - 1], turns[|turns| - 1];
      Attempts(data, budget, front)
      + B(t.who < |Run(data, budget, front).live| && (data.Canary? || !t.outcome.Parks?))
  }

  lemma {:induction false} AttemptsAreCounted(data: Data, budget: Stage -> Option<nat>, turns: seq<Turn>)
    requires Run(data, budget, turns).forks == 0
    ensures HasLeft(budget, Run(data, budget, turns),
                    Cap(budget, Download) + Behind(budget, Download) - Attempts(data, budget, turns))
  {
    hide Next, HasLeft;
    if turns == [] {
      FirstHasAll(data, budget);
    } else {
      var n := |turns| - 1;
      StepShrinks(Run(data, budget, turns[..n]), data, budget, turns[n]);
      AttemptsAreCounted(data, budget, turns[..n]);
      TurnUsesAnAttempt(Run(data, budget, turns[..n]), data, budget, turns[n],
                        Cap(budget, Download) + Behind(budget, Download) - Attempts(data, budget, turns[..n]));
    }
  }

  lemma FirstHasAll(data: Data, budget: Stage -> Option<nat>)
    ensures HasLeft(budget, Run(data, budget, []), Cap(budget, Download) + Behind(budget, Download))
  {
  }

  /** Retries use the budgets up: a pipeline job none of whose adds landed and threw is over after as many
      attempts as its five stages have between them, whatever each attempt meets. */
  lemma EveryJobEnds(data: Data, budget: Stage -> Option<nat>, turns: seq<Turn>)
    requires Run(data, budget, turns).forks == 0
    ensures var all := Cap(budget, Download) + Cap(budget, Transcribe) + Cap(budget, Analyze)
                       + Cap(budget, Render) + Cap(budget, Finalize);
            && Attempts(data, budget, turns) <= all
            && (Attempts(data, budget, turns) == all ==> Run(data, budget, turns).live == [])
  {
    AttemptsAreCounted(data, budget, turns);
  }

  /******* A deleted row *******/

  /** How many attempts of live queue jobs threw and then found the pipeline job's row deleted. */
  function Deletions(data: Data, budget: Stage -> Option<nat>, turns: seq<Turn>): nat {
    if turns == [] then 0
    else
      var front, t := turns[..|turns| - 1], turns[|turns| - 1];
      Deletions(data, budget, front)
      + B(t.who < |Run(data, budget, front).live| && t.outcome.Throws? && t.outcome.row == RowDeleted)
  }

  function IsDiscarded(): Ending -> bool {
    (e: Ending) => e.Discarded?
  }

  lemma AttemptDiscards(p: Pipeline, data: Data, budget: Stage -> Option<nat>, t: Turn)
    requires t.who < |p.live|
    ensures Count(IsDiscarded(), Next(p, data, budget, t).endings)
            == Count(IsDiscarded(), p.endings)
               + B(&& t.outcome.Throws? && t.outcome.row == RowDeleted
                   && data.Fields? && data.jobId.Text? && data.userId.Text?)
  {
    hide OnFailed, OnCompleted, Count;
    forall e: Ending
      ensures Count(IsDiscarded(), p.endings + [e]) == Count(IsDiscarded(), p.endings) + B(e.Discarded?)
    {
      CountAppend(IsDiscarded(), p.endings, e);
    }
  }

  /** When a throw is the end of a queue job: the row is gone, the failure is an unrecoverable one, or the
      attempt was the last its stage has. */
  lemma ThrowEndsIff(p: Pipeline, data: Data, budget: Stage -> Option<nat>, t: Turn)
    requires t.who < |p.live| && t.outcome.Throws? && !data.Canary?
    ensures var stage, made := p.live[t.who].stage, p.live[t.who].attemptsMade + 1;
            var q := Next(p, data, budget, t);
            && (|q.endings| > |p.endings| <==>
                || (t.outcome.row == RowDeleted && data.Fields? && data.jobId.Text? && data.userId.Text?)
                || t.outcome.failure.Unrecoverable? || budget(stage).None? || made >= budget(stage).value)
            && (|q.endings| == |p.endings| ==> q.live[t.who] == Live(stage, made))
  {
    hide OnFailed;
  }

  /** An attempt that throws when the row is gone ends its queue job for good and as discarded, with no retry,
      refund or alert; one that finds the row, or cannot look it up, never does. */
  lemma {:induction false} DiscardedIffDeleted(data: Data, budget: Stage -> Option<nat>, turns: seq<Turn>)
    ensures Count(IsDiscarded(), Run(data, budget, turns).endings)
            == if data.Fields? && data.jobId.Text? && data.userId.Text? then Deletions(data, budget, turns) else 0
  {
    hide Next;
    if turns != [] {
      var front, t := turns[..|turns| - 1], turns[|turns| - 1];
      DiscardedIffDeleted(data, budget, front);
      var p := Run(data, budget, front);
      if t.who < |p.live| {
        AttemptDiscards(p, data, budget, t);
      } else {
        NobodyRan(p, data, budget, t);
      }
    }
  }

  lemma NobodyRan(p: Pipeline, data: Data, budget: Stage -> Option<nat>, t: Turn)
    requires t.who >= |p.live|
    ensures Next(p, data, budget, t) == p
  {
  }

  /******* A smooth run *******/

  /** The stages of a job whose analysis found clips, or none. */
  function Stages(skip: bool): seq<Stage> {
    if skip then [Download, Transcribe, Analyze, Finalize] else [Download, Transcribe, Analyze, Render, Finalize]
  }

  /** k successes in a row. */
  function Smooth(skip: bool, k: nat): (turns: seq<Turn>)
    ensures |turns| == k
  {
    if k == 0 then [] else Smooth(skip, k - 1) + [Turn(0, Succeeds(skip))]
  }

  /** A job that succeeds everywhere goes through each of its stages once, in order, and ends finished. */
  lemma {:induction false} StagesInOrder(data: Data, budget: Stage -> Option<nat>, skip: bool, k: nat)
    requires !data.Canary? && k <= |Stages(skip)|
    ensures var p := Run(data, budget, Smooth(skip, k));
            if k < |Stages(skip)| then p.live == [Live(Stages(skip)[k], 0)] && p.endings == []
            else p.live == [] && p.endings == [Finished]
  {
    if k > 0 {
      StagesInOrder(data, budget, skip, k - 1);
      assert Smooth(skip, k)[..k - 1] == Smooth(skip, k - 1);
      SmoothTurn(Run(data, budget, Smooth(skip, k - 1)), data, budget, skip, k - 1);
    }
  }

  lemma SmoothTurn(p: Pipeline, data: Data, budget: Stage -> Option<nat>, skip: bool, k: nat)
    requires !data.Canary? && k < |Stages(skip)| && p.live == [Live(Stages(skip)[k], 0)] && p.endings == []
    ensures var q := Next(p, data, budget, Turn(0, Succeeds(skip)));
            if k + 1 < |Stages(skip)| then q.live == [Live(Stages(skip)[k + 1], 0)] && q.endings == []
            else q.live == [] && q.endings == [Finished]
  {
    hide OnCompleted;
  }

  /******* A fork *******/

  /** Every stage has one attempt. */
  const ONCE: Stage -> Option<nat> := (stage: Stage) => Some(1)

  /** Analyze puts the render on its queue, and the answer is lost. */
  const ANSWER_LOST := Turn(0, Throws(Retriable, RowPresent, Some(false)))

  const GOOD := Turn(0, Succeeds(false))

  predicate At(p: Pipeline, stage: Stage, forks: nat) {
    p.live == [Live(stage, 0)] && p.forks == forks && |p.endings| == forks
  }

  lemma RunOne(data: Data, turns: seq<Turn>, t: Turn)
    ensures Run(data, ONCE, turns + [t]) == Next(Run(data, ONCE, turns), data, ONCE, t)
  {
    assert (turns + [t])[..|turns|] == turns;
  }

  lemma GoodTurn(p: Pipeline, data: Data, stage: Stage)
    requires At(p, stage, p.forks) && !data.Canary?
    ensures var q := Next(p, data, ONCE, GOOD);
            if stage == Finalize then q.live == [] && q.forks == p.forks && |q.endings| == p.forks + 1
            else At(q, NextStage(stage, false).value, p.forks)
  {
  }

  lemma LostTurn(p: Pipeline, data: Data)
    requires At(p, Analyze, 0) && !data.Canary?
    ensures At(Next(p, data, ONCE, ANSWER_LOST), Render, 1)
  {
  }

  /** It happens on what was analyze's last attempt: its failure frees the slot while the render is still to
      run, and the end of finalize frees it again. */
  lemma ForkReleasesTwice(data: Data)
    requires WellFormed(data)
    ensures var turns := [GOOD, GOOD, ANSWER_LOST, GOOD, GOOD];
            var p := Run(data, ONCE, turns);
            && p.live == [] && p.forks == 1 && Count(OfKind(KRelease), p.effects) == 2
            && exists n :: 0 <= n <= |turns| && ReleasedEarly(Run(data, ONCE, turns[..n]))
  {
    hide Next, Run, At;
    var start := [];
    assert At(Run(data, ONCE, start), Download, 0) by { StartsAtDownload(data); }
    GoodNext(data, start, Download, 0);
    GoodNext(data, start + [GOOD], Transcribe, 0);
    var two := start + [GOOD] + [GOOD];
    RunOne(data, two, ANSWER_LOST);
    LostTurn(Run(data, ONCE, two), data);
    GoodNext(data, two + [ANSWER_LOST], Render, 1);
    GoodNext(data, two + [ANSWER_LOST] + [GOOD], Finalize, 1);
    var turns := [GOOD, GOOD, ANSWER_LOST, GOOD, GOOD];
    assert two + [ANSWER_LOST] + [GOOD] + [GOOD] == turns;
    WellFormedJobsAlwaysRelease(data, ONCE, turns);
    ReleasedEarlyIffForked(data, ONCE, turns);
  }

  lemma StartsAtDownload(data: Data)
    ensures At(Run(data, ONCE, []), Download, 0)
  {
  }

  lemma GoodNext(data: Data, turns: seq<Turn>, stage: Stage, forks: nat)
    requires At(Run(data, ONCE, turns), stage, forks) && !data.Canary?
    ensures var q := Run(data, ONCE, turns + [GOOD]);
            if stage == Finalize then q.live == [] && q.forks == forks && |q.endings| == forks + 1
            else At(q, NextStage(stage, false).value, forks)
  {
    hide Next, Run;
    RunOne(data, turns, GOOD);
    GoodTurn(Run(data, ONCE, turns), data, stage);
  }
}
