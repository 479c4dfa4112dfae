/** docker/warp/control.py, rotate(): many request threads, one lock, one clock.

    A step of the system is a step of one thread or of the clock, so a statement over all
    sequences of actions is one over all interleavings. What a rotation does is WarpRotation's
    business; here it takes any time and ends in any result, or raises. */
module WarpLock {
  import opened Wrappers
  import opened WarpRotation

  /** Where a request thread is. All but Idle and Waiting hold the lock. */
  datatype Phase =
    | Idle
    | Waiting(requestedAt: real)
    | Holding(requestedAt: real)
    | Rotating(requestedAt: real, enteredAt: real)
    | Cooling(requestedAt: real)

  datatype Event =
    | Entered(thread: nat, requestedAt: real, at: real)
    | Completed(thread: nat, result: Result, at: real)
    | Raised(thread: nat, at: real)
    | Coalesced(thread: nat, requestedAt: real, result: Result, at: real)
    | Cooled(thread: nat, at: real)

  /** now is the monotonic clock; lastAt and lastResult are the module variables, 0 and None until
      a rotation completes. */
  datatype State = State(now: real, lastAt: real, lastResult: Option<Result>, threads: map<nat, Phase>,
                         history: seq<Event>)

  datatype Action =
    | Tick(seconds: real)
    | Request(thread: nat)
    | Acquire(thread: nat)
    | Decide(thread: nat)
    | Complete(thread: nat, result: Result)
    | Raise(thread: nat)
    | AnswerCooldown(thread: nat)

  function PhaseOf(s: State, t: nat): Phase {
    if t in s.threads then s.threads[t] else Idle
  }

  predicate Locked(p: Phase) {
    !p.Idle? && !p.Waiting?
  }

  predicate LockIsFree(s: State) {
    forall t :: t in s.threads ==> !Locked(s.threads[t])
  }

  function Move(s: State, t: nat, p: Phase): State {
    s.(threads := s.threads[t := p])
  }

  function Log(s: State, e: Event): State {
    s.(history := s.history + [e])
  }

  /** The thread that holds the lock acts on the guards that `Control.Rotate` obeys. */
  function Decision(s: State, t: nat, requestedAt: real, cooldown: real): State {
    match Guards(s.lastResult, s.lastAt, requestedAt, s.now, cooldown)
    case Coalesce(result) => Log(Move(s, t, Idle), Coalesced(t, requestedAt, result, s.now))
    case Refuse(_) => Move(s, t, Cooling(requestedAt))
    case Enter => Log(Move(s, t, Rotating(requestedAt, s.now)), Entered(t, requestedAt, s.now))
  }

  /** An action that is not enabled leaves the state as it is. */
  function Next(s: State, a: Action, cooldown: real): State {
    match a
    case Tick(seconds) => if seconds >= 0.0 then s.(now := s.now + seconds) else s
    case Request(t) => if PhaseOf(s, t).Idle? then Move(s, t, Waiting(s.now)) else s
    case Acquire(t) =>
      if PhaseOf(s, t).Waiting? && LockIsFree(s) then Move(s, t, Holding(PhaseOf(s, t).requestedAt)) else s
    case Decide(t) =>
      if PhaseOf(s, t).Holding? then Decision(s, t, PhaseOf(s, t).requestedAt, cooldown) else s
    case Complete(t, result) =>
      if PhaseOf(s, t).Rotating?
      then Log(Move(s, t, Idle), Completed(t, result, s.now)).(lastAt := s.now, lastResult := Some(result))
      else s
    case Raise(t) =>
      if PhaseOf(s, t).Rotating? then Log(Move(s, t, Idle), Raised(t, s.now)) else s
    case AnswerCooldown(t) =>
      if PhaseOf(s, t).Cooling? then Log(Move(s, t, Idle), Cooled(t, s.now)) else s
  }

  function Run(start: real, actions: seq<Action>, cooldown: real): State {
    if actions == [] then State(start, 0.0, None, map[], [])
    else Next(Run(start, actions[..|actions| - 1], cooldown), actions[|actions| - 1], cooldown)
  }

  /******* What every state of every run satisfies *******/

  predicate OneHolder(s: State) {
    forall t, u :: t in s.threads && u in s.threads && Locked(s.threads[t]) && Locked(s.threads[u]) ==> t == u
  }

  /** A thread inside a rotation asked after the last completed rotation and entered a cooldown later. */
  predicate EntryIsFresh(s: State, requestedAt: real, at: real, cooldown: real) {
    s.lastResult.Some? ==> s.lastAt < requestedAt && at - s.lastAt >= cooldown
  }

  predicate PhasesOk(s: State, cooldown: real) {
    forall t :: t in s.threads ==>
      match s.threads[t]
      case Idle => true
      case Waiting(r) => r <= s.now
      case Holding(r) => r <= s.now
      case Cooling(r) => r <= s.now
      case Rotating(r, at) => r <= at <= s.now && EntryIsFresh(s, r, at, cooldown)
  }

  /** The thread whose rotation is under way, according to the history. */
  function Active(history: seq<Event>): Option<nat> {
    if history == [] then None
    else match history[|history| - 1]
      case Entered(t, _, _) => Some(t)
      case Completed(_, _, _) => None
      case Raised(_, _) => None
      case _ => Active(history[..|history| - 1])
  }

  datatype Rotation = Rotation(result: Result, at: real)

  /** The last completed rotation, according to the history. */
  function LastCompleted(history: seq<Event>): Option<Rotation> {
    if history == [] then None
    else match history[|history| - 1]
      case Completed(_, result, at) => Some(Rotation(result, at))
      case _ => LastCompleted(history[..|history| - 1])
  }

  /** What event e promises about the history before it. */
  predicate Justified(before: seq<Event>, e: Event, cooldown: real) {
    var last := LastCompleted(before);
    match e
    // serialized, asked for after the last completed rotation, and a cooldown after it
    case Entered(_, requestedAt, at) =>
      Active(before).None? && requestedAt <= at
      && (last.Some? ==> last.value.at < requestedAt && at - last.value.at >= cooldown)
    // ends the rotation that is under way, no earlier than a cooldown after the last completed one
    case Completed(t, _, at) => Active(before) == Some(t) && (last.Some? ==> at - last.value.at >= cooldown)
    case Raised(t, _) => Active(before) == Some(t)
    // answered with a rotation that completed while the caller waited
    case Coalesced(_, requestedAt, result, at) =>
      last.Some? && last.value.result == result && requestedAt <= last.value.at <= at
    case Cooled(_, _) => last.Some?
  }

  predicate HistoryOk(history: seq<Event>, cooldown: real) {
    forall i :: 0 <= i < |history| ==> Justified(history[..i], history[i], cooldown)
  }

  predicate Agrees(s: State) {
    && (match LastCompleted(s.history)
        case None => s.lastResult.None? && s.lastAt == 0.0
        case Some(e) => s.lastResult == Some(e.result) && s.lastAt == e.at && 0.0 < e.at <= s.now)
    && (forall t :: t in s.threads ==> (s.threads[t].Rotating? <==> Active(s.history) == Some(t)))
    && (Active(s.history).Some? ==> Active(s.history).value in s.threads)
  }

  predicate CoolingOk(s: State) {
    forall t :: t in s.threads && s.threads[t].Cooling? ==> s.lastResult.Some?
  }

  predicate Inv(s: State, cooldown: real) {
    && s.now > 0.0
    && OneHolder(s)
    && PhasesOk(s, cooldown)
    && Agrees(s)
    && CoolingOk(s)
    && HistoryOk(s.history, cooldown)
  }

  lemma LogOk(history: seq<Event>, e: Event, cooldown: real)
    requires HistoryOk(history, cooldown) && Justified(history, e, cooldown)
    ensures HistoryOk(history + [e], cooldown)
    ensures LastCompleted(history + [e])
            == if e.Completed? then Some(Rotation(e.result, e.at)) else LastCompleted(history)
    ensures Active(history + [e]) == match e
                                     case Entered(t, _, _) => Some(t)
                                     case Completed(_, _, _) => None
                                     case Raised(_, _) => None
                                     case _ => Active(history)
  {
    var next := history + [e];
    assert next[..|history|] == history;
    forall i | 0 <= i < |next|
      ensures Justified(next[..i], next[i], cooldown)
    {
      assert i < |history| ==> next[..i] == history[..i];
    }
  }

  /** Moving the holder around, or out, leaves at most one holder. */
  lemma MoveKeepsOneHolder(s: State, t: nat, p: Phase)
    requires OneHolder(s) && (Locked(p) ==> Locked(PhaseOf(s, t)) || LockIsFree(s))
    ensures OneHolder(Move(s, t, p))
  {
  }

  /** Only the lock's holder can be inside a rotation. */
  lemma HolderIsActive(s: State, t: nat)
    requires OneHolder(s) && Agrees(s) && Locked(PhaseOf(s, t))
    ensures Active(s.history) == if PhaseOf(s, t).Rotating? then Some(t) else None
  {
  }

  /** Past both guards the entry is fresh. */
  lemma GuardsMeanFresh(s: State, r: real, cooldown: real)
    requires Agrees(s) && !(s.lastResult.Some? && s.lastAt >= r) && !(s.lastAt > 0.0 && s.now - s.lastAt < cooldown)
    ensures EntryIsFresh(s, r, s.now, cooldown)
  {
  }

  lemma CoolKeepsInv(s: State, t: nat, r: real, cooldown: real)
    requires Inv(s, cooldown) && PhaseOf(s, t) == Holding(r) && s.lastAt > 0.0
    ensures Inv(Move(s, t, Cooling(r)), cooldown)
  {
    HolderIsActive(s, t);
    MoveKeepsOneHolder(s, t, Cooling(r));
    hide OneHolder, HistoryOk, Active, LastCompleted;
    WaitedUntilNow(s, t, r, cooldown);
    assert PhasesOk(Move(s, t, Cooling(r)), cooldown);
  }

  lemma DecideKeepsInv(s: State, t: nat, cooldown: real)
    requires Inv(s, cooldown) && PhaseOf(s, t).Holding?
    ensures Inv(Next(s, Decide(t), cooldown), cooldown)
  {
    var r := PhaseOf(s, t).requestedAt;
    assert Agrees(s);
    hide Inv;
    if s.lastResult.Some? && s.lastAt >= r {
      CoalesceKeepsInv(s, t, r, cooldown);
    } else if s.lastAt > 0.0 && s.now - s.lastAt < cooldown {
      CoolKeepsInv(s, t, r, cooldown);
    } else {
      GuardsMeanFresh(s, r, cooldown);
      EnterKeepsInv(s, t, r, cooldown);
    }
  }

  lemma CoalesceKeepsInv(s: State, t: nat, r: real, cooldown: real)
    requires Inv(s, cooldown) && PhaseOf(s, t) == Holding(r) && s.lastResult.Some? && s.lastAt >= r
    ensures Inv(Log(Move(s, t, Idle), Coalesced(t, r, s.lastResult.value, s.now)), cooldown)
  {
    HolderIsActive(s, t);
    MoveKeepsOneHolder(s, t, Idle);
    LogOk(s.history, Coalesced(t, r, s.lastResult.value, s.now), cooldown);
  }

  lemma EnterKeepsPhases(s: State, t: nat, r: real, cooldown: real)
    requires PhasesOk(s, cooldown) && r <= s.now && EntryIsFresh(s, r, s.now, cooldown)
    ensures PhasesOk(Log(Move(s, t, Rotating(r, s.now)), Entered(t, r, s.now)), cooldown)
  {
  }

  lemma EnterAgrees(s: State, t: nat, r: real, cooldown: real)
    requires HistoryOk(s.history, cooldown) && Justified(s.history, Entered(t, r, s.now), cooldown)
    requires Agrees(s) && Active(s.history).None?
    ensures Agrees(Log(Move(s, t, Rotating(r, s.now)), Entered(t, r, s.now)))
  {
    hide Active, LastCompleted, HistoryOk, Justified;
    LogOk(s.history, Entered(t, r, s.now), cooldown);
  }

  lemma EntryIsJustified(s: State, t: nat, r: real, cooldown: real)
    requires Agrees(s) && Active(s.history).None? && r <= s.now && EntryIsFresh(s, r, s.now, cooldown)
    ensures Justified(s.history, Entered(t, r, s.now), cooldown)
  {
  }

  lemma WaitedUntilNow(s: State, t: nat, r: real, cooldown: real)
    requires PhasesOk(s, cooldown) && PhaseOf(s, t) == Holding(r)
    ensures r <= s.now
  {
  }

  lemma EnterKeepsInv(s: State, t: nat, r: real, cooldown: real)
    requires Inv(s, cooldown) && PhaseOf(s, t) == Holding(r) && EntryIsFresh(s, r, s.now, cooldown)
    ensures Inv(Log(Move(s, t, Rotating(r, s.now)), Entered(t, r, s.now)), cooldown)
  {
    hide PhasesOk, Agrees, HistoryOk, OneHolder, Justified, EntryIsFresh, Active, LastCompleted, CoolingOk;
    var e := Entered(t, r, s.now);
    HolderIsActive(s, t);
    WaitedUntilNow(s, t, r, cooldown);
    EntryIsJustified(s, t, r, cooldown);
    EnterKeepsPhases(s, t, r, cooldown);
    EnterAgrees(s, t, r, cooldown);
    LogOk(s.history, e, cooldown);
    MoveKeepsOneHolder(s, t, Rotating(r, s.now));
    var moved, next := Move(s, t, Rotating(r, s.now)), Log(Move(s, t, Rotating(r, s.now)), e);
    SameThreads(moved, next);
    EnterKeepsCooling(s, t, r);
  }

  lemma EnterKeepsCooling(s: State, t: nat, r: real)
    requires CoolingOk(s)
    ensures CoolingOk(Log(Move(s, t, Rotating(r, s.now)), Entered(t, r, s.now)))
  {
  }

  lemma SameThreads(s: State, n: State)
    requires OneHolder(s) && n.threads == s.threads
    ensures OneHolder(n)
  {
  }

  lemma NoOneElseRotates(s: State, t: nat)
    requires OneHolder(s) && PhaseOf(s, t).Rotating?
    ensures forall u :: u in Move(s, t, Idle).threads ==> !Locked(Move(s, t, Idle).threads[u])
  {
  }

  lemma RaiseKeepsInv(s: State, t: nat, cooldown: real)
    requires Inv(s, cooldown) && PhaseOf(s, t).Rotating?
    ensures Inv(Next(s, Raise(t), cooldown), cooldown)
  {
    HolderIsActive(s, t);
    NoOneElseRotates(s, t);
    LogOk(s.history, Raised(t, s.now), cooldown);
  }

  lemma CompleteKeepsInv(s: State, t: nat, result: Result, cooldown: real)
    requires Inv(s, cooldown) && PhaseOf(s, t).Rotating?
    ensures Inv(Next(s, Complete(t, result), cooldown), cooldown)
  {
    HolderIsActive(s, t);
    NoOneElseRotates(s, t);
    LogOk(s.history, Completed(t, result, s.now), cooldown);
  }

  lemma RequestKeepsInv(s: State, t: nat, cooldown: real)
    requires Inv(s, cooldown) && PhaseOf(s, t).Idle?
    ensures Inv(Next(s, Request(t), cooldown), cooldown)
  {
  }

  lemma AcquireKeepsInv(s: State, t: nat, cooldown: real)
    requires Inv(s, cooldown) && PhaseOf(s, t).Waiting? && LockIsFree(s)
    ensures Inv(Next(s, Acquire(t), cooldown), cooldown)
  {
  }

  lemma AnswerKeepsInv(s: State, t: nat, cooldown: real)
    requires Inv(s, cooldown) && PhaseOf(s, t).Cooling?
    ensures Inv(Next(s, AnswerCooldown(t), cooldown), cooldown)
  {
    HolderIsActive(s, t);
    MoveKeepsOneHolder(s, t, Idle);
    LogOk(s.history, Cooled(t, s.now), cooldown);
  }

  lemma StepKeepsInv(s: State, a: Action, cooldown: real)
    requires Inv(s, cooldown)
    ensures Inv(Next(s, a, cooldown), cooldown)
  {
    match a {
      case Tick(_) =>
      case Request(t) => if PhaseOf(s, t).Idle? { RequestKeepsInv(s, t, cooldown); }
      case Acquire(t) => if PhaseOf(s, t).Waiting? && LockIsFree(s) { AcquireKeepsInv(s, t, cooldown); }
      case Decide(t) => if PhaseOf(s, t).Holding? { DecideKeepsInv(s, t, cooldown); }
      case Complete(t, result) => if PhaseOf(s, t).Rotating? { CompleteKeepsInv(s, t, result, cooldown); }
      case Raise(t) => if PhaseOf(s, t).Rotating? { RaiseKeepsInv(s, t, cooldown); }
      case AnswerCooldown(t) => if PhaseOf(s, t).Cooling? { AnswerKeepsInv(s, t, cooldown); }
    }
  }

  /** Over all interleavings: rotations are serialized, each one was asked for after the last
      completed one and starts a cooldown after it, and a coalesced caller is told about a rotation
      that completed while it waited. */
  lemma {:induction false} RunKeepsInv(start: real, actions: seq<Action>, cooldown: real)
    requires start > 0.0
    ensures Inv(Run(start, actions, cooldown), cooldown)
  {
    if actions != [] {
      RunKeepsInv(start, actions[..|actions| - 1], cooldown);
      StepKeepsInv(Run(start, actions[..|actions| - 1], cooldown), actions[|actions| - 1], cooldown);
    }
  }

  /******* Rotations per window *******/

  /** When rotations completed. */
  function Completions(history: seq<Event>): seq<real> {
    if history == [] then []
    else
      var e := history[|history| - 1];
      Completions(history[..|history| - 1]) + if e.Completed? then [e.at] else []
  }

  predicate Spaced(ts: seq<real>, gap: real) {
    forall i :: 0 <= i < |ts| - 1 ==> ts[i + 1] - ts[i] >= gap
  }

  lemma {:induction false} CompletionsAreSpaced(history: seq<Event>, cooldown: real)
    requires HistoryOk(history, cooldown)
    ensures var ts := Completions(history);
            && Spaced(ts, cooldown)
            && (ts == [] <==> LastCompleted(history).None?)
            && (ts != [] ==> ts[|ts| - 1] == LastCompleted(history).value.at)
  {
    if history != [] {
      var before := history[..|history| - 1];
      assert forall i :: 0 <= i < |before| ==> before[..i] == history[..i];
      CompletionsAreSpaced(before, cooldown);
      assert Justified(before, history[|history| - 1], cooldown);
    }
  }

  /** How many of ts lie in [from, to]. */
  function InWindow(ts: seq<real>, from: real, to: real): nat {
    if ts == [] then 0
    else InWindow(ts[..|ts| - 1], from, to) + if from <= ts[|ts| - 1] <= to then 1 else 0
  }

  /** n gaps end to end. */
  function Gaps(n: nat, gap: real): real {
    if n == 0 then 0.0 else Gaps(n - 1, gap) + gap
  }

  lemma {:induction false} GapsMultiply(n: nat, gap: real)
    ensures Gaps(n, gap) == n as real * gap
  {
    if n > 0 {
      GapsMultiply(n - 1, gap);
    }
  }

  lemma {:induction false} SpacedIsSorted(ts: seq<real>, gap: real, i: nat)
    requires Spaced(ts, gap) && gap >= 0.0 && i < |ts|
    ensures ts[i] <= ts[|ts| - 1]
    decreases |ts| - i
  {
    if i < |ts| - 1 {
      SpacedIsSorted(ts, gap, i + 1);
    }
  }

  lemma {:induction false} WindowShrinks(ts: seq<real>, from: real, to: real, to': real)
    requires forall i :: 0 <= i < |ts| ==> (ts[i] <= to <==> ts[i] <= to')
    ensures InWindow(ts, from, to) == InWindow(ts, from, to')
  {
    if ts != [] {
      WindowShrinks(ts[..|ts| - 1], from, to, to');
    }
  }

  lemma {:induction false} FewInWindow(ts: seq<real>, gap: real, from: real, to: real)
    requires Spaced(ts, gap) && gap > 0.0
    ensures InWindow(ts, from, to) > 0 ==> Gaps(InWindow(ts, from, to) - 1, gap) <= to - from
  {
    if ts != [] {
      var front, last := ts[..|ts| - 1], ts[|ts| - 1];
      if from <= last <= to {
        if front != [] {
          forall i | 0 <= i < |front|
            ensures front[i] <= last - gap
          {
            SpacedIsSorted(front, gap, i);
          }
          WindowShrinks(front, from, to, last - gap);
        }
        FewInWindow(front, gap, from, last - gap);
      } else {
        FewInWindow(front, gap, from, to);
      }
    }
  }

  lemma CompletionsPerWindow(history: seq<Event>, cooldown: real, from: real, length: real)
    requires HistoryOk(history, cooldown) && cooldown > 0.0 && length >= 0.0
    ensures InWindow(Completions(history), from, from + length) as real <= length / cooldown + 1.0
  {
    var n := InWindow(Completions(history), from, from + length);
    CompletionsAreSpaced(history, cooldown);
    FewInWindow(Completions(history), cooldown, from, from + length);
    GapsBound(n, cooldown, length);
  }

  lemma GapsBound(n: nat, gap: real, length: real)
    requires gap > 0.0 && length >= 0.0 && (n > 0 ==> Gaps(n - 1, gap) <= length)
    ensures n as real <= length / gap + 1.0
  {
    if n > 0 {
      GapsMultiply(n - 1, gap);
      ScaledBound((n - 1) as real, gap, length);
    } else {
      ScaledBound(0.0, gap, length);
    }
  }

  /** In any window of length T there are at most T / cooldown + 1 completed rotations. */
  lemma CompletedRotationsPerWindow(start: real, actions: seq<Action>, cooldown: real, from: real, length: real)
    requires start > 0.0 && cooldown > 0.0 && length >= 0.0
    ensures var completions := Completions(Run(start, actions, cooldown).history);
            InWindow(completions, from, from + length) as real <= length / cooldown + 1.0
  {
    RunKeepsInv(start, actions, cooldown);
    CompletionsPerWindow(Run(start, actions, cooldown).history, cooldown, from, length);
  }

  lemma ScaledBound(k: real, gap: real, length: real)
    requires gap > 0.0 && k * gap <= length
    ensures k <= length / gap
  {
    assert length / gap - k == (length - k * gap) / gap;
  }

  /******* Rotations that raise *******/

  /** The cooldown counts completed rotations only. Of two entries in a row the later one keeps the
      cooldown whenever the earlier one completed. */
  lemma EntryAfterCompletionCools(history: seq<Event>, cooldown: real, i: nat, j: nat, k: nat)
    requires HistoryOk(history, cooldown)
    requires i < k < j < |history| && history[i].Entered? && history[k].Completed? && history[j].Entered?
    ensures exists c :: 0 <= c < j && history[c].Completed? && history[j].at - history[c].at >= cooldown && c >= k
  {
    var before := history[..j];
    LastCompletedIsLate(before, k);
  }

  lemma {:induction false} LastCompletedIsLate(history: seq<Event>, k: nat)
    requires k < |history| && history[k].Completed?
    ensures exists c :: && k <= c < |history| && history[c].Completed?
                        && LastCompleted(history) == Some(Rotation(history[c].result, history[c].at))
  {
    if !history[|history| - 1].Completed? {
      LastCompletedIsLate(history[..|history| - 1], k);
    }
  }

  /** A rotation that raised starts no cooldown: the next request is let in at the same instant,
      and drops every connection again. */
  lemma RaisedRotationStartsNoCooldown(start: real, cooldown: real)
    requires start > 0.0
    ensures var actions := [Request(0), Acquire(0), Decide(0), Raise(0), Request(1), Acquire(1), Decide(1)];
            Run(start, actions, cooldown).history
            == [Entered(0, start, start), Raised(0, start), Entered(1, start, start)]
  {
    var s4 := State(start, 0.0, None, map[0 := Idle], [Entered(0, start, start), Raised(0, start)]);
    RaisingRotation(start, cooldown);
    SecondEntry(s4, start, cooldown);
    hide Next;
    RunThree(start, [], Request(0), Acquire(0), Decide(0), cooldown);
    RunOne(start, [Request(0), Acquire(0), Decide(0)], Raise(0), cooldown);
    RunThree(start, [Request(0), Acquire(0), Decide(0), Raise(0)], Request(1), Acquire(1), Decide(1), cooldown);
    assert [] + [Request(0), Acquire(0), Decide(0)] == [Request(0), Acquire(0), Decide(0)];
    assert [Request(0), Acquire(0), Decide(0)] + [Raise(0)] == [Request(0), Acquire(0), Decide(0), Raise(0)];
    assert [Request(0), Acquire(0), Decide(0), Raise(0)] + [Request(1), Acquire(1), Decide(1)]
        == [Request(0), Acquire(0), Decide(0), Raise(0), Request(1), Acquire(1), Decide(1)];
  }

  lemma RaisingRotation(start: real, cooldown: real)
    requires start > 0.0
    ensures var s0 := State(start, 0.0, None, map[], []);
            var s3 := Next(Next(Next(s0, Request(0), cooldown), Acquire(0), cooldown), Decide(0), cooldown);
            Next(s3, Raise(0), cooldown)
            == State(start, 0.0, None, map[0 := Idle], [Entered(0, start, start), Raised(0, start)])
  {
  }

  lemma SecondEntry(s: State, start: real, cooldown: real)
    requires s == State(start, 0.0, None, map[0 := Idle], [Entered(0, start, start), Raised(0, start)])
    ensures Next(Next(Next(s, Request(1), cooldown), Acquire(1), cooldown), Decide(1), cooldown).history
            == [Entered(0, start, start), Raised(0, start), Entered(1, start, start)]
  {
  }

  lemma RunOne(start: real, actions: seq<Action>, a: Action, cooldown: real)
    ensures Run(start, actions + [a], cooldown) == Next(Run(start, actions, cooldown), a, cooldown)
  {
  }

  lemma RunThree(start: real, actions: seq<Action>, a: Action, b: Action, c: Action, cooldown: real)
    ensures Run(start, actions + [a, b, c], cooldown)
            == Next(Next(Next(Run(start, actions, cooldown), a, cooldown), b, cooldown), c, cooldown)
  {
    hide Next;
    RunOne(start, actions, a, cooldown);
    RunOne(start, actions + [a], b, cooldown);
    RunOne(start, actions + [a] + [b], c, cooldown);
    assert actions + [a] + [b] + [c] == actions + [a, b, c];
  }
}
