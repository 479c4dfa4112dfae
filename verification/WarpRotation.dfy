/** docker/warp/control.py: one rotation, as the holder of the lock runs it.

    The proxy is an adversary: two unconstrained scripts say what every address read and every
    warp-cli call answers. Time is real, and passes only in subprocess calls, each within its
    timeout, and in sleeps. */
module WarpRotation {
  import opened Wrappers

  type Address = s: string | s != "" witness "192.0.2.1"

  /** One egress_ip(): the address seen through the proxy, or None when it cannot be read. */
  datatype Reading = Reading(ip: Option<Address>, took: real)

  /** One warp-cli call: it returns, or runs into its timeout and raises. */
  datatype Call = Call(took: real, raises: bool)

  datatype Reason = Pinned | EscalationNoMove | EgressUnreadable

  datatype Result = Result(rotated: bool, escalated: bool, reason: Option<Reason>, previousIp: Option<Address>,
      ip: Option<Address>)

  /** What a caller of /rotate is told; Failed is the 500 of a rotation that raised. */
  datatype Reply =
    | Answer(result: Result, coalesced: bool)
    | OnCooldown(remaining: real, ip: Option<Address>)
    | Failed

  /** The steps that cost in-flight connections, with the times at which they matter. */
  datatype Event =
    | Reconnecting(at: real)
    | ReconnectMoved
    | EscalationStarted(at: real)
    | EscalationEnded(at: real, moved: bool)

  /** What warp-cli is told. */
  datatype Command = Disconnect | Connect | DeleteRegistration | NewRegistration

  const EGRESS_TIMEOUT := 15.0

  predicate Moved(previous: Option<Address>, current: Option<Address>) {
    current.Some? && current != previous
  }

  function Ceil(x: real): int {
    -((-x).Floor)
  }

  function Max(x: real, y: real): real {
    if x > y then x else y
  }

  function Min(x: real, y: real): real {
    if x < y then x else y
  }

  /** What rotate() decides once it holds the lock. */
  datatype Verdict = Coalesce(result: Result) | Refuse(remaining: real) | Enter

  /** Its two guards, read under the lock, for a caller that asked at requestedAt. */
  function Guards(lastResult: Option<Result>, lastAt: real, requestedAt: real, now: real, cooldown: real): Verdict {
    if lastResult.Some? && lastAt >= requestedAt then Coalesce(lastResult.value)
    else if lastAt > 0.0 && now - lastAt < cooldown then Refuse(cooldown - (now - lastAt))
    else Enter
  }

  /******* Pin memory *******/

  /** When the last completed escalation ended, if it did not move the address and nothing has
      moved it since. */
  function LastFutile(log: seq<Event>): Option<real> {
    if log == [] then None
    else match log[|log| - 1]
      case ReconnectMoved => None
      case EscalationEnded(at, moved) => if moved then None else Some(at)
      case _ => LastFutile(log[..|log| - 1])
  }

  /** Every escalation starts at least `memory` after a futile one that is still remembered. */
  predicate PinRespected(log: seq<Event>, memory: real) {
    forall j :: 0 <= j < |log| && log[j].EscalationStarted? ==>
      LastFutile(log[..j]).Some? ==> log[j].at - LastFutile(log[..j]).value >= memory
  }

  predicate MovesAddress(e: Event) {
    e.ReconnectMoved? || (e.EscalationEnded? && e.moved)
  }

  /** The same promise without the bookkeeping: between a futile escalation and a later one lie
      `memory` seconds, a move, or another futile escalation. */
  lemma {:induction false} FutileEscalationIsRemembered(log: seq<Event>, memory: real, i: nat, j: nat)
    requires PinRespected(log, memory)
    requires i < j < |log| && log[i].EscalationEnded? && !log[i].moved && log[j].EscalationStarted?
    requires forall k :: i < k < j ==> !log[k].EscalationEnded? && !MovesAddress(log[k])
    ensures log[j].at - log[i].at >= memory
  {
    LastFutileIs(log[..j], i);
  }

  lemma {:induction false} LastFutileIs(log: seq<Event>, i: nat)
    requires i < |log| && log[i].EscalationEnded? && !log[i].moved
    requires forall k :: i < k < |log| ==> !log[k].EscalationEnded? && !MovesAddress(log[k])
    ensures LastFutile(log) == Some(log[i].at)
  {
    if i < |log| - 1 {
      LastFutileIs(log[..|log| - 1], i);
    }
  }

  lemma NoteRespectsPin(log: seq<Event>, e: Event, memory: real)
    requires PinRespected(log, memory)
    requires e.EscalationStarted? && LastFutile(log).Some? ==> e.at - LastFutile(log).value >= memory
    ensures PinRespected(log + [e], memory)
    ensures LastFutile(log + [e]) == match e
                                     case ReconnectMoved => None
                                     case EscalationEnded(at, moved) => if moved then None else Some(at)
                                     case _ => LastFutile(log)
  {
    var next := log + [e];
    assert next[..|log|] == log;
    forall j | 0 <= j < |next| && next[j].EscalationStarted? && LastFutile(next[..j]).Some?
      ensures next[j].at - LastFutile(next[..j]).value >= memory
    {
      assert j < |log| ==> next[..j] == log[..j];
    }
  }

  /** Reconnects in a log. */
  function Reconnects(log: seq<Event>): nat {
    if log == [] then 0 else Reconnects(log[..|log| - 1]) + if log[|log| - 1].Reconnecting? then 1 else 0
  }

  function Escalations(log: seq<Event>): nat {
    if log == [] then 0 else Escalations(log[..|log| - 1]) + if log[|log| - 1].EscalationStarted? then 1 else 0
  }

  lemma NoteCounts(log: seq<Event>, e: Event)
    ensures Reconnects(log + [e]) == Reconnects(log) + if e.Reconnecting? then 1 else 0
    ensures Escalations(log + [e]) == Escalations(log) + if e.EscalationStarted? then 1 else 0
  {
  }

  /** n reconnects. */
  function Cycles(n: nat): seq<Command> {
    if n == 0 then [] else Cycles(n - 1) + [Disconnect, Connect]
  }

  function Configured(attempts: int): nat {
    if attempts > 0 then attempts else 0
  }

  /** From position `from` on, whatever follows a reconnect comes nine seconds after it, one between its
      calls and eight of watching the exit, or not before the deadline. */
  predicate Patient(log: seq<Event>, from: nat, deadline: real) {
    forall j :: from < j < |log| && log[j - 1].Reconnecting? ==>
      match log[j]
      case Reconnecting(at) => at >= log[j - 1].at + 9.0 && at < deadline
      case EscalationStarted(at) => at >= log[j - 1].at + 9.0 || at >= deadline
      case _ => true
  }

  /** A patient continuation. */
  predicate Continues(was: seq<Event>, log: seq<Event>, deadline: real) {
    |log| >= |was| && log[..|was|] == was && Patient(log, |was|, deadline)
  }

  /** `log` is `was` and k reconnects, each of them watched for its time by `now`. */
  predicate Attempted(was: seq<Event>, log: seq<Event>, k: nat, now: real, deadline: real) {
    && |log| == |was| + k && log[..|was|] == was && Patient(log, |was|, deadline)
    && (k > 0 ==> log[|log| - 1].Reconnecting? && (now >= log[|log| - 1].at + 9.0 || now >= deadline))
    && Reconnects(log) == Reconnects(was) + k && Escalations(log) == Escalations(was)
  }

  lemma AttemptNone(was: seq<Event>, now: real, deadline: real)
    ensures Attempted(was, was, 0, now, deadline)
  {
  }

  lemma AttemptCounts(was: seq<Event>, log: seq<Event>, k: nat, now: real, deadline: real)
    requires Attempted(was, log, k, now, deadline)
    ensures Reconnects(log) == Reconnects(was) + k && Escalations(log) == Escalations(was)
    ensures Continues(was, log, deadline)
  {
  }

  lemma AttemptOneMore(was: seq<Event>, log: seq<Event>, k: nat, at: real, now: real, deadline: real)
    requires Attempted(was, log, k, at, deadline) && at < deadline && (now >= at + 9.0 || now >= deadline)
    ensures Attempted(was, log + [Reconnecting(at)], k + 1, now, deadline)
  {
    NoteCounts(log, Reconnecting(at));
  }

  /** A reconnect that moved, or raised, ends the attempts. */
  lemma AttemptsEnd(was: seq<Event>, log: seq<Event>, k: nat, at: real, deadline: real)
    requires Attempted(was, log, k, at, deadline) && at < deadline
    ensures Continues(was, log + [Reconnecting(at)] + [], deadline)
    ensures Continues(was, log + [Reconnecting(at)] + [ReconnectMoved], deadline)
  {
    var once := log + [Reconnecting(at)];
    assert forall j :: 0 <= j < |log| ==> once[j] == log[j] == (once + [ReconnectMoved])[j];
  }

  lemma EscalatePatiently(was: seq<Event>, log: seq<Event>, k: nat, at: real, after: seq<Event>, deadline: real)
    requires Attempted(was, log, k, at, deadline) && |after| > |log|
    requires after[..|log| + 1] == log + [EscalationStarted(at)]
    requires forall j :: |log| < j < |after| ==> after[j].EscalationEnded?
    ensures Continues(was, after, deadline) && after[|log|] == EscalationStarted(at) && |log| >= |was|
  {
    assert forall j :: 0 <= j < |log| ==> after[j] == (log + [EscalationStarted(at)])[j] == log[j];
    assert after[|log|] == (log + [EscalationStarted(at)])[|log|];
  }

  /** Two known exits, one after the other. */
  predicate TwoExits(previous: Option<Address>, current: Option<Address>) {
    previous.Some? && current.Some? && previous.value != current.value
  }

  /******* The control process *******/

  class Control {
    const cooldown: real
    const rotateDeadline: real
    const reconnectAttempts: int
    const pinMemory: real

    /** The adversary: the n-th read and the n-th call of the run. */
    const readings: nat -> Reading
    const calls: nat -> Call

    var now: real
    var readCount: nat
    var callsMade: nat
    /** _pinned_since: 0 means nothing is remembered. */
    var pinnedSince: real
    /** _last_rotation_at and _last_result: 0 and None until a rotation completes. */
    var lastRotationAt: real
    var lastResult: Option<Result>
    ghost var log: seq<Event>
    ghost var commands: seq<Command>

    ghost predicate Valid()
      reads this
    {
      && now > 0.0
      && (forall i :: 0.0 <= readings(i).took <= EGRESS_TIMEOUT)
      && (forall i :: 0.0 <= calls(i).took)
      && 0.0 <= pinnedSince <= now
      && 0.0 <= lastRotationAt <= now
      && (lastResult.None? <==> lastRotationAt == 0.0)
      && LastFutile(log) == (if pinnedSince > 0.0 then Some(pinnedSince) else None)
      && (pinMemory > 0.0 ==> PinRespected(log, pinMemory))
    }

    constructor (start: real, cooldown: real, rotateDeadline: real, reconnectAttempts: int, pinMemory: real,
                 readings: nat -> Reading, calls: nat -> Call)
      requires start > 0.0
      requires forall i :: 0.0 <= readings(i).took <= EGRESS_TIMEOUT
      requires forall i :: 0.0 <= calls(i).took
      ensures Valid() && pinnedSince == 0.0 && log == [] && commands == []
      ensures now == start && readCount == 0 && callsMade == 0
      ensures this.cooldown == cooldown && this.rotateDeadline == rotateDeadline && this.pinMemory == pinMemory
      ensures this.reconnectAttempts == reconnectAttempts && this.readings == readings && this.calls == calls
    {
      this.cooldown, this.rotateDeadline, this.reconnectAttempts, this.pinMemory := cooldown, rotateDeadline,
          reconnectAttempts, pinMemory;
      this.readings, this.calls := readings, calls;
      now, readCount, callsMade, pinnedSince, log, commands := start, 0, 0, 0.0, [], [];
      lastRotationAt, lastResult := 0.0, None;
    }

    /** No warp-cli call raises or runs into its timeout. */
    ghost predicate CallsWork() {
      forall i :: !calls(i).raises && calls(i).took <= 30.0
    }

    /** From the n-th on, every reading is an address. */
    ghost predicate ReadableFrom(n: nat) {
      forall i :: i >= n ==> readings(i).ip.Some?
    }

    method Sleep(seconds: real)
      requires seconds >= 0.0
      modifies this`now
      ensures now == old(now) + seconds
    {
      now := now + seconds;
    }

    method EgressIp() returns (ip: Option<Address>)
      requires Valid()
      modifies this`now, this`readCount
      ensures Valid() && readCount == old(readCount) + 1 && ip == readings(old(readCount)).ip
      ensures old(now) <= now == old(now) + readings(old(readCount)).took <= old(now) + EGRESS_TIMEOUT
    {
      ip := readings(readCount).ip;
      now := now + readings(readCount).took;
      readCount := readCount + 1;
    }

    /** The n-th call returns within its timeout. */
    ghost predicate Returns(n: nat, timeout: real) {
      !calls(n).raises && calls(n).took <= timeout
    }

    /** warp(*args, timeout): a call that has not returned by its timeout raises there. */
    method WarpCli(command: Command, timeout: real) returns (raised: bool)
      requires Valid() && timeout >= 0.0
      modifies this`now, this`callsMade, this`commands
      ensures Valid() && callsMade == old(callsMade) + 1
      ensures old(now) <= now <= old(now) + timeout
      ensures raised <==> !Returns(old(callsMade), timeout)
      ensures commands == old(commands) + [command]
    {
      commands := commands + [command];
      var call := calls(callsMade);
      now := now + Min(call.took, timeout);
      raised := call.raises || call.took > timeout;
      callsMade := callsMade + 1;
    }

    /** _await_change: at least one read, at most one more per started second of waiting; it ends on
        the first reading that moved, or on the last one before it saw the deadline behind it. */
    method AwaitChange(previous: Option<Address>, deadline: real) returns (last: Option<Address>)
      requires Valid()
      modifies this`now, this`readCount
      ensures Valid()
      ensures readCount > old(readCount) && last == readings(readCount - 1).ip
      ensures forall i :: old(readCount) <= i < readCount - 1 ==> !Moved(previous, readings(i).ip)
      ensures Moved(previous, last) || now >= deadline
      ensures readCount == old(readCount) + 1 || readCount - old(readCount) <= Ceil(deadline - old(now)) + 1
      ensures old(now) <= now <= Max(old(now) + EGRESS_TIMEOUT, deadline + 1.0 + EGRESS_TIMEOUT)
    {
      last := EgressIp();
      while !Moved(previous, last) && now < deadline
        invariant Valid()
        invariant readCount > old(readCount) && last == readings(readCount - 1).ip
        invariant forall i :: old(readCount) <= i < readCount - 1 ==> !Moved(previous, readings(i).ip)
        invariant old(now) + (readCount - old(readCount) - 1) as real <= now
        invariant readCount > old(readCount) + 1 ==> (readCount - old(readCount) - 2) as real < deadline - old(now)
        invariant now <= Max(old(now) + EGRESS_TIMEOUT, deadline + 1.0 + EGRESS_TIMEOUT)
        decreases Ceil(deadline - now)
      {
        ghost var before := now;
        Sleep(1.0);
        last := EgressIp();
        assert Ceil(deadline - now) < Ceil(deadline - before);
      }
    }

    ghost method Note(e: Event)
      requires Valid()
      requires !e.ReconnectMoved? && !e.EscalationEnded?
      requires e.EscalationStarted? && LastFutile(log).Some? && pinMemory > 0.0 ==>
        e.at - LastFutile(log).value >= pinMemory
      modifies this`log
      ensures Valid() && log == old(log) + [e]
      ensures Reconnects(log) == old(Reconnects(log)) + if e.Reconnecting? then 1 else 0
      ensures Escalations(log) == old(Escalations(log)) + if e.EscalationStarted? then 1 else 0
    {
      if pinMemory > 0.0 {
        NoteRespectsPin(log, e, pinMemory);
      }
      NoteCounts(log, e);
      assert (log + [e])[..|log|] == log;
      log := log + [e];
    }

    /** Remember (or forget) the outcome of a step that finished. */
    method Remember(e: Event)
      requires Valid()
      requires e.ReconnectMoved? || (e.EscalationEnded? && e.at == now)
      modifies this`log, this`pinnedSince
      ensures Valid() && log == old(log) + [e]
      ensures pinnedSince == if MovesAddress(e) then 0.0 else now
      ensures Reconnects(log) == old(Reconnects(log)) && Escalations(log) == old(Escalations(log))
    {
      if pinMemory > 0.0 {
        NoteRespectsPin(log, e, pinMemory);
      }
      NoteCounts(log, e);
      log := log + [e];
      pinnedSince := if MovesAddress(e) then 0.0 else now;
    }

    /** Is the last escalation still believed to have been useless? */
    predicate BelievesPinned()
      reads this
    {
      pinMemory > 0.0 && pinnedSince > 0.0 && now - pinnedSince < pinMemory
    }

    /** When the reading that a rotation begins with will be over. */
    ghost function FirstRead(): real
      reads this
    {
      now + readings(readCount).took
    }

    /** One disconnect, sleep, connect. */
    method Reconnect() returns (raised: bool)
      requires Valid()
      modifies this`now, this`callsMade, this`commands, this`log
      ensures Valid() && old(now) <= now <= old(now) + 61.0 && log == old(log) + [Reconnecting(old(now))]
      ensures Reconnects(log) == old(Reconnects(log)) + 1 && Escalations(log) == old(Escalations(log))
      ensures !raised ==> commands == old(commands) + [Disconnect, Connect] && now >= old(now) + 1.0
      ensures raised <==> !(Returns(old(callsMade), 30.0) && Returns(old(callsMade) + 1, 30.0))
    {
      Note(Reconnecting(now));
      raised := WarpCli(Disconnect, 30.0);
      if !raised {
        Sleep(1.0);
        raised := WarpCli(Connect, 30.0);
      }
    }

    /** One turn of the loop: a reconnect, and eight seconds of watching the exit. */
    method TryOnce(previous: Option<Address>, deadline: real) returns (raised: bool, current: Option<Address>)
      requires Valid() && now < deadline
      modifies this`now, this`readCount, this`callsMade, this`commands, this`pinnedSince, this`log
      ensures Valid() && old(now) <= now <= deadline + 76.0 && readCount >= old(readCount)
      ensures !raised ==> readCount > old(readCount) && current == readings(readCount - 1).ip
      ensures log == old(log) + [Reconnecting(old(now))]
                     + if !raised && Moved(previous, current) then [ReconnectMoved] else []
      ensures Reconnects(log) == old(Reconnects(log)) + 1 && Escalations(log) == old(Escalations(log))
      ensures !raised && !Moved(previous, current) ==> now >= old(now) + 9.0 || now >= deadline
      ensures pinnedSince == if !raised && Moved(previous, current) then 0.0 else old(pinnedSince)
      ensures !raised ==> commands == old(commands) + [Disconnect, Connect]
      ensures CallsWork() ==> !raised
      ensures !raised && previous.None? && ReadableFrom(old(readCount)) ==> Moved(previous, current)
    {
      current := None;
      raised := Reconnect();
      if !raised {
        current := AwaitChange(previous, Min(deadline, now + 8.0));
        if Moved(previous, current) {
          Remember(ReconnectMoved);
        }
      }
    }

    /** The reconnect loop: None when a call raised, otherwise what it last read. */
    method TryReconnects(previous: Option<Address>, deadline: real, attempts: int)
      returns (raised: bool, current: Option<Address>)
      requires Valid() && now <= deadline
      modifies this`now, this`readCount, this`callsMade, this`commands, this`pinnedSince, this`log
      ensures Valid() && old(now) <= now <= deadline + 76.0 && readCount >= old(readCount)
      ensures !raised ==>
        current == if readCount > old(readCount) then readings(readCount - 1).ip else None
      ensures Escalations(log) == old(Escalations(log))
      ensures old(Reconnects(log)) <= Reconnects(log) <= old(Reconnects(log)) + Configured(attempts)
      // it gives up on a move only after all its attempts, or at the deadline, having watched each for its time
      ensures !raised && !Moved(previous, current) ==>
        && Attempted(old(log), log, Reconnects(log) - old(Reconnects(log)), now, deadline)
        && (Reconnects(log) == old(Reconnects(log)) + Configured(attempts) || now >= deadline)
      ensures Continues(old(log), log, deadline)
      ensures !raised ==> commands == old(commands) + Cycles(Reconnects(log) - old(Reconnects(log)))
      ensures pinnedSince == if !raised && Moved(previous, current) then 0.0 else old(pinnedSince)
      ensures CallsWork() ==> !raised
      ensures !raised && previous.None? && ReadableFrom(old(readCount)) && attempts > 0 && old(now) < deadline ==>
                Moved(previous, current)
    {
      hide Valid, Attempted, Patient, Continues, Reconnects, Escalations, CallsWork, ReadableFrom;
      raised, current := false, None;
      var k := 0;
      AttemptNone(log, now, deadline);
      while k < attempts && now < deadline
        invariant 0 <= k && (k <= attempts || k == 0)
        invariant Valid() && !raised && !Moved(previous, current)
        invariant old(now) <= now <= deadline + 76.0 && readCount >= old(readCount)
        invariant current == if readCount > old(readCount) then readings(readCount - 1).ip else None
        invariant Attempted(old(log), log, k, now, deadline)
        invariant commands == old(commands) + Cycles(k)
        invariant pinnedSince == old(pinnedSince)
        invariant k == 0 ==> readCount == old(readCount) && now == old(now)
        invariant previous.None? && ReadableFrom(old(readCount)) ==> k == 0
        decreases attempts - k
      {
        ghost var before, at := log, now;
        AttemptCounts(old(log), log, k, now, deadline);
        AttemptsEnd(old(log), log, k, now, deadline);
        raised, current := TryOnce(previous, deadline);
        if raised || Moved(previous, current) {
          return;
        }
        AttemptOneMore(old(log), before, k, at, now, deadline);
        assert log == before + [Reconnecting(at)];
        k := k + 1;
      }
      AttemptCounts(old(log), log, k, now, deadline);
    }

    /** registration delete, registration new, connect. */
    method Register() returns (raised: bool)
      requires Valid()
      modifies this`now, this`callsMade, this`commands
      ensures Valid() && old(now) <= now <= old(now) + 105.0
      ensures !raised ==> commands == old(commands) + [DeleteRegistration, NewRegistration, Connect]
      ensures raised <==> !(&& Returns(old(callsMade), 30.0) && Returns(old(callsMade) + 1, 45.0)
                            && Returns(old(callsMade) + 2, 30.0))
    {
      raised := WarpCli(DeleteRegistration, 30.0);
      if !raised {
        raised := WarpCli(NewRegistration, 45.0);
      }
      if !raised {
        raised := WarpCli(Connect, 30.0);
      }
    }

    /** A fresh registration and the reading after it. */
    method Escalate(previous: Option<Address>, deadline: real) returns (raised: bool, current: Option<Address>)
      requires Valid() && !BelievesPinned()
      modifies this`now, this`readCount, this`callsMade, this`commands, this`pinnedSince, this`log
      ensures Valid() && old(now) <= now <= Max(old(now) + 120.0, deadline + 16.0) && readCount >= old(readCount)
      ensures Reconnects(log) == old(Reconnects(log)) && Escalations(log) == old(Escalations(log)) + 1
      ensures |log| > |old(log)| && log[..|old(log)| + 1] == old(log) + [EscalationStarted(old(now))]
      ensures forall j :: |old(log)| < j < |log| ==> log[j].EscalationEnded?
      ensures !raised ==> commands == old(commands) + [DeleteRegistration, NewRegistration, Connect]
      ensures !raised ==> readCount > old(readCount) && current == readings(readCount - 1).ip
      ensures !raised && !Moved(previous, current) ==> now >= deadline
      ensures !raised ==> pinnedSince == if Moved(previous, current) then 0.0 else now
      ensures raised ==> pinnedSince == old(pinnedSince)
      ensures CallsWork() ==> !raised
    {
      hide PinRespected, LastFutile, Reconnects, Escalations;
      Note(EscalationStarted(now));
      current := None;
      raised := Register();
      if !raised {
        current := AwaitChange(previous, deadline);
        Remember(EscalationEnded(now, Moved(previous, current)));
      }
    }

    /** _rotate_locked: None when a warp-cli call raised. */
    method RotateLocked() returns (r: Option<Result>)
      requires Valid() && rotateDeadline >= 0.0
      modifies this`now, this`readCount, this`callsMade, this`commands, this`pinnedSince, this`log
      ensures Valid()
      ensures old(now) <= now <= old(now) + rotateDeadline + 211.0
      // the answer: rotated exactly when the address read last differs from the one read first
      ensures r.Some? ==>
        && r.value.previousIp == readings(old(readCount)).ip
        && (r.value.rotated <==> Moved(r.value.previousIp, r.value.ip))
        && r.value.ip == (if readCount > old(readCount) + 1 then readings(readCount - 1).ip else None)
        && (r.value.escalated ==> readCount > old(readCount) + 1)
      // and when it is not, why: pinned without an escalation, behind one by whether an exit could be read
      ensures r.Some? ==>
        r.value.reason == (if r.value.rotated then None
                           else if !r.value.escalated then Some(Pinned)
                           else if r.value.ip.Some? then Some(EscalationNoMove) else Some(EgressUnreadable))
      ensures CallsWork() ==> r.Some?
      // an escalation comes behind every configured reconnect, or at the deadline, and never while pinned; an
      // answer without one moved, or was pinned
      ensures Escalations(log) > old(Escalations(log)) ==>
        && !(pinMemory > 0.0 && old(pinnedSince) > 0.0 && old(FirstRead()) - old(pinnedSince) < pinMemory)
        && exists j :: && |old(log)| <= j < |log| && log[j].EscalationStarted?
                       && (|| Reconnects(log) == old(Reconnects(log)) + Configured(reconnectAttempts)
                           || log[j].at >= old(FirstRead()) + rotateDeadline)
      ensures r.Some? && !r.value.escalated && !r.value.rotated ==>
        pinMemory > 0.0 && old(pinnedSince) > 0.0 && old(FirstRead()) - old(pinnedSince) < pinMemory
      ensures r.Some? && !r.value.rotated ==>
        || now >= old(FirstRead()) + rotateDeadline
        || (r.value.reason == Some(Pinned) && Reconnects(log) == old(Reconnects(log)) + 1)
      ensures Continues(old(log), log, old(FirstRead()) + rotateDeadline)
      ensures old(Reconnects(log)) <= Reconnects(log)
      ensures r.Some? ==>
        commands == old(commands) + Cycles(Reconnects(log) - old(Reconnects(log)))
                    + if r.value.escalated then [DeleteRegistration, NewRegistration, Connect] else []
      // what it proves: a move between two known exits if and only if the first read was one; after an
      // unreadable first read any readable exit at all, the old one included, is reported as rotated
      ensures r.Some? && r.value.rotated ==> (TwoExits(r.value.previousIp, r.value.ip) <==> r.value.previousIp.Some?)
      ensures r.Some? && r.value.previousIp.None? && ReadableFrom(old(readCount) + 1) && rotateDeadline > 0.0 ==>
                r.value.rotated
      // the memory: a move forgets, a futile escalation is remembered as of now, anything else is as it was
      ensures r.Some? && r.value.rotated ==> pinnedSince == 0.0
      ensures r.Some? && !r.value.rotated && r.value.escalated ==> pinnedSince == now
      ensures r.Some? && !r.value.rotated && !r.value.escalated ==>
        pinnedSince == old(pinnedSince) && r.value.reason == Some(Pinned)
      ensures r.None? ==> pinnedSince == old(pinnedSince)
      // the price: one reconnect while pinned, never an escalation
      ensures Escalations(log) <= old(Escalations(log)) + 1
      ensures r.Some? ==> (r.value.escalated <==> Escalations(log) == old(Escalations(log)) + 1)
      ensures pinMemory > 0.0 && old(pinnedSince) > 0.0 && old(now) + EGRESS_TIMEOUT < old(pinnedSince) + pinMemory ==>
                Escalations(log) == old(Escalations(log)) && Reconnects(log) <= old(Reconnects(log)) + 1
      ensures Reconnects(log) <= old(Reconnects(log)) + if reconnectAttempts > 1 then reconnectAttempts else 1
    {
      hide Valid, Attempted, Patient, Continues, Reconnects, Escalations, CallsWork, Cycles;
      var previous := EgressIp();
      var deadline := now + rotateDeadline;
      var pinned := BelievesPinned();
      var attempts := if pinned then 1 else reconnectAttempts;
      var raised, current := TryReconnects(previous, deadline, attempts);
      if raised {
        return None;
      }
      if Moved(previous, current) {
        return Some(Result(true, false, None, previous, current));
      }
      if pinned {
        return Some(Result(false, false, Some(Pinned), previous, current));
      }
      ghost var tried, at := log, now;
      raised, current := Escalate(previous, deadline);
      EscalatePatiently(old(log), tried, Reconnects(tried) - old(Reconnects(log)), at, log, deadline);
      assert log[|tried|].EscalationStarted?;
      if raised {
        return None;
      }
      var moved := Moved(previous, current);
      var reason :=
        if moved then None else if current.Some? then Some(EscalationNoMove) else Some(EgressUnreadable);
      r := Some(Result(moved, true, reason, previous, current));
    }

    /** rotate(), from the moment the lock is held by a caller that asked at requestedAt. Exactly
        one of: the rotation that completed while it waited, the cooldown's refusal, or a rotation
        of its own; and only a rotation that completes moves the cooldown. */
    method Rotate(requestedAt: real) returns (reply: Reply)
      requires Valid() && rotateDeadline >= 0.0 && requestedAt <= now
      modifies this
      ensures Valid()
      ensures reply.Answer? && reply.coalesced <==> old(lastResult).Some? && old(lastRotationAt) >= requestedAt
      ensures reply.OnCooldown? <==>
              old(lastResult).Some? && old(lastRotationAt) < requestedAt && old(now) - old(lastRotationAt) < cooldown
      // the decision is the one WarpLock's threads take
      ensures match Guards(old(lastResult), old(lastRotationAt), requestedAt, old(now), cooldown)
              case Coalesce(result) => reply == Answer(result, true) && now == old(now)
              case Refuse(remaining) => reply.OnCooldown? && reply.remaining == remaining > 0.0
              case Enter => reply.Failed? || (reply.Answer? && !reply.coalesced)
      ensures reply.Answer? && !reply.coalesced ==> lastRotationAt == now && lastResult == Some(reply.result)
      ensures !reply.Answer? || reply.coalesced ==>
        lastRotationAt == old(lastRotationAt) && lastResult == old(lastResult)
      ensures reply.OnCooldown? || (reply.Answer? && reply.coalesced) ==>
        log == old(log) && pinnedSince == old(pinnedSince)
    {
      if lastResult.Some? && lastRotationAt >= requestedAt {
        return Answer(lastResult.value, true);
      }
      var since := now - lastRotationAt;
      if lastRotationAt > 0.0 && since < cooldown {
        var ip := EgressIp();
        return OnCooldown(cooldown - since, ip);
      }
      var result := RotateLocked();
      match result {
        case None => return Failed;
        case Some(r) =>
          lastRotationAt, lastResult := now, Some(r);
          return Answer(r, false);
      }
    }
  }

  /** An exit that never changes and a first read that fails: the answer claims a rotation. */
  method BlindRotation(exit: Address) returns (r: Result)
    ensures r.rotated && r.previousIp.None? && r.ip == Some(exit)
  {
    var c := new Control(1.0, 30.0, 75.0, 3, 21600.0,
                         n => if n == 0 then Reading(None, 1.0) else Reading(Some(exit), 1.0),
                         n => Call(1.0, false));
    var answer := c.RotateLocked();
    assert c.CallsWork() && c.ReadableFrom(1);
    r := answer.value;
  }
}
