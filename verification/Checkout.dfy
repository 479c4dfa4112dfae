/** apps/bot/src/handlers.ts, handleSubscribeCallback: any number of taps on plan buttons, by any
    users, interleaved at every await.

    A tap is a thread; each action below is what happens between two of its awaits, or a step of
    the clock, or another program changing an order's status. */
module Checkout {
  import opened Wrappers

  /** Milliseconds: 15 * 60_000. */
  const FRESH: int := 900000

  datatype Plan = Plan(plan: string, cycle: string)

  /** Where a tap is. All but Over hold the user's lock. */
  datatype Phase =
    | Looking
    | Creating(lookedAt: int)
    | Inserting(lookedAt: int, uuid: string)
    | Showing(uuid: string)
    | Over

  datatype Tap = Tap(user: string, plan: Plan, phase: Phase)

  /** A tribute_orders row. `unheard` marks a row stored by an insert that threw. */
  datatype Order = Order(uuid: string, user: string, plan: Plan, createdAt: int, pending: bool, unheard: bool)

  /** An order at the payment provider: the tap that had it created, whether that tap was told so
      (a creation that threw may still have taken effect), and the row recording it, if any. */
  datatype Remote = Remote(tap: nat, answered: bool, row: Option<nat>)

  /** A pay link, and the tap's user and plan it was shown for. */
  datatype Link = Link(user: string, plan: Plan, uuid: string)

  /** `locks` is subscribeLocks, with the tap that put each user in. */
  datatype State = State(
    now: int,
    locks: map<string, nat>,
    taps: map<nat, Tap>,
    orders: seq<Order>,
    remote: map<string, Remote>,
    cancelled: set<string>,
    shown: seq<Link>)

  datatype Action =
    | Tick(ms: nat)
    | Press(tap: nat, user: string, plan: Plan)
    | Throw(tap: nat)
    | Look(tap: nat)
    | CreateAnswered(tap: nat, uuid: string)
    | CreateThrew(tap: nat, landed: Option<string>)
    | Insert(tap: nat, write: Write)
    | Show(tap: nat, shown: bool)
    | StatusChanges(order: nat)

  function Initial(now: int): State {
    State(now, map[], map[], [], map[], {}, [])
  }

  predicate Inside(s: State, t: nat) {
    t in s.taps && !s.taps[t].phase.Over?
  }

  function To(s: State, t: nat, p: Phase): State
    requires t in s.taps
  {
    s.(taps := s.taps[t := s.taps[t].(phase := p)])
  }

  /** The finally block. */
  function Leave(s: State, t: nat): State
    requires t in s.taps
  {
    To(s, t, Over).(locks := s.locks - {s.taps[t].user})
  }

  predicate IsFresh(o: Order, user: string, plan: Plan, now: int) {
    o.user == user && o.plan == plan && o.pending && o.createdAt > now - FRESH
  }

  /** The newest fresh order. */
  function FindFresh(orders: seq<Order>, user: string, plan: Plan, now: int): Option<Order> {
    if orders == [] then None
    else if IsFresh(orders[|orders| - 1], user, plan, now) then Some(orders[|orders| - 1])
    else FindFresh(orders[..|orders| - 1], user, plan, now)
  }

  /** An action that is not enabled leaves the state as it is. The lock test and the lock are one
      action because no await separates them. */
  function Next(s: State, a: Action): State {
    match a
    case Tick(ms) => s.(now := s.now + ms)
    case Press(t, user, plan) =>
      if t in s.taps || user in s.locks then s
      else s.(locks := s.locks[user := t], taps := s.taps[t := Tap(user, plan, Looking)])
    case Throw(t) =>
      if Inside(s, t) && s.taps[t].phase.Looking? then Leave(s, t) else s
    case Look(t) =>
      if Inside(s, t) && s.taps[t].phase.Looking? then
        var found := FindFresh(s.orders, s.taps[t].user, s.taps[t].plan, s.now);
        if found.Some? then To(s, t, Showing(found.value.uuid)) else To(s, t, Creating(s.now))
      else s
    case CreateAnswered(t, uuid) =>
      if Inside(s, t) && s.taps[t].phase.Creating? && uuid !in s.remote then
        To(s, t, Inserting(s.taps[t].phase.lookedAt, uuid)).(remote := s.remote[uuid := Remote(t, true, None)])
      else s
    case CreateThrew(t, landed) =>
      if Inside(s, t) && s.taps[t].phase.Creating? && (landed.Some? ==> landed.value !in s.remote) then
        Leave(s, t).(remote := if landed.Some? then s.remote[landed.value := Remote(t, false, None)] else s.remote)
      else s
    case Insert(t, w) =>
      if Inside(s, t) && s.taps[t].phase.Inserting? then InsertOrder(s, t, w) else s
    case Show(t, shown) =>
      if Inside(s, t) && s.taps[t].phase.Showing? then
        var tap := s.taps[t];
        Leave(s, t).(shown := if shown then s.shown + [Link(tap.user, tap.plan, tap.phase.uuid)] else s.shown)
      else s
    case StatusChanges(i) =>
      if i < |s.orders| then s.(orders := s.orders[i := s.orders[i].(pending := false)]) else s
  }

  /** A row appears for an answered remote order. */
  function Store(s: State, uuid: string, tap: Tap, unheard: bool): State
    requires uuid in s.remote
  {
    s.(orders := s.orders + [Order(uuid, tap.user, tap.plan, s.now, true, unheard)],
       remote := s.remote[uuid := s.remote[uuid].(row := Some(|s.orders|))])
  }

  /** The insert; when it throws, the remote order is cancelled and the tap is over. */
  function InsertOrder(s: State, t: nat, w: Write): State
    requires t in s.taps && s.taps[t].phase.Inserting?
  {
    var uuid := s.taps[t].phase.uuid;
    var stored := if w.Applied() && uuid in s.remote then Store(s, uuid, s.taps[t], w.Threw?) else s;
    if w.Stored? then To(stored, t, Showing(uuid))
    else Leave(stored, t).(cancelled := s.cancelled + {uuid})
  }

  function Run(now: int, actions: seq<Action>): State {
    if actions == [] then Initial(now) else Next(Run(now, actions[..|actions| - 1]), actions[|actions| - 1])
  }

  /******* What every state of every run satisfies *******/

  predicate Recorded(s: State, uuid: string) {
    uuid in s.remote && s.remote[uuid].row.Some?
  }

  /** ... by a row of that user and plan. */
  predicate RecordedFor(s: State, uuid: string, user: string, plan: Plan) {
    && Recorded(s, uuid) && s.remote[uuid].row.value < |s.orders|
    && s.orders[s.remote[uuid].row.value].user == user && s.orders[s.remote[uuid].row.value].plan == plan
  }

  /** The lock is held exactly while a tap of its user is inside, and by one tap at a time. */
  predicate LocksOk(s: State) {
    && (forall t :: t in s.taps && !s.taps[t].phase.Over? ==> s.taps[t].user in s.locks && s.locks[s.taps[t].user] == t)
    && (forall u :: u in s.locks ==> Inside(s, s.locks[u]) && s.taps[s.locks[u]].user == u)
  }

  /** At lookedAt no order of this user and plan was fresh. */
  predicate NoneFreshAt(orders: seq<Order>, user: string, plan: Plan, lookedAt: int) {
    forall i :: 0 <= i < |orders| && orders[i].user == user && orders[i].plan == plan && orders[i].pending ==>
      lookedAt - orders[i].createdAt >= 15 * 60 * 1000
  }

  /** Two orders for one plan are created FRESH apart while the earlier one stays pending. */
  predicate Spaced(orders: seq<Order>) {
    forall i, j ::
      && 0 <= i < j < |orders| && orders[i].pending
      && orders[i].user == orders[j].user && orders[i].plan == orders[j].plan ==>
        orders[j].createdAt - orders[i].createdAt >= 15 * 60 * 1000
  }

  predicate TapOk(s: State, t: nat)
    requires t in s.taps
  {
    var tap := s.taps[t];
    match tap.phase
    case Creating(at) => at <= s.now && NoneFreshAt(s.orders, tap.user, tap.plan, at)
    case Inserting(at, uuid) =>
      && at <= s.now && NoneFreshAt(s.orders, tap.user, tap.plan, at)
      && uuid in s.remote && s.remote[uuid] == Remote(t, true, None) && uuid !in s.cancelled
    case Showing(uuid) => RecordedFor(s, uuid, tap.user, tap.plan)
    case _ => true
  }

  predicate TapsOk(s: State) {
    forall t :: t in s.taps ==> TapOk(s, t)
  }

  predicate OrderOk(s: State, i: nat, o: Order) {
    && o.uuid in s.remote && s.remote[o.uuid].answered && s.remote[o.uuid].row == Some(i)
    && (o.unheard <==> o.uuid in s.cancelled)
  }

  /** A remote order's row is where it says; one that was answered is recorded, cancelled, or about
      to be one of the two. */
  predicate RemoteOk(s: State, u: string, r: Remote) {
    && (r.row.Some? ==> r.answered && r.row.value < |s.orders| && s.orders[r.row.value].uuid == u)
    && (u in s.cancelled ==> r.answered)
    && (r.answered && r.row.None? && u !in s.cancelled ==>
         Inside(s, r.tap) && s.taps[r.tap].phase.Inserting? && s.taps[r.tap].phase.uuid == u)
  }

  predicate BooksOk(s: State) {
    && Spaced(s.orders)
    && (forall i :: 0 <= i < |s.orders| ==> OrderOk(s, i, s.orders[i]))
    && (forall u :: u in s.remote ==> RemoteOk(s, u, s.remote[u]))
    && (forall i :: 0 <= i < |s.shown| ==> RecordedFor(s, s.shown[i].uuid, s.shown[i].user, s.shown[i].plan))
    && (forall u :: u in s.cancelled ==> u in s.remote)
  }

  predicate Inv(s: State) {
    LocksOk(s) && TapsOk(s) && BooksOk(s)
  }

  /** A pending order of that user and plan less than fifteen minutes old, and none behind it. */
  predicate NewestFresh(orders: seq<Order>, i: nat, user: string, plan: Plan, now: int)
    requires i < |orders|
  {
    && orders[i].user == user && orders[i].plan == plan && orders[i].pending
    && now - orders[i].createdAt < 15 * 60 * 1000
    && forall k :: i < k < |orders| && orders[k].user == user && orders[k].plan == plan && orders[k].pending ==>
         now - orders[k].createdAt >= 15 * 60 * 1000
  }

  lemma {:induction false} FindFreshFinds(orders: seq<Order>, user: string, plan: Plan, now: int)
    ensures match FindFresh(orders, user, plan, now)
            case None => NoneFreshAt(orders, user, plan, now)
            case Some(o) =>
              exists i :: 0 <= i < |orders| && orders[i] == o && NewestFresh(orders, i, user, plan, now)
  {
    if orders != [] {
      var n := |orders| - 1;
      FindFreshFinds(orders[..n], user, plan, now);
      assert IsFresh(orders[n], user, plan, now) ==> NewestFresh(orders, n, user, plan, now);
      forall i | 0 <= i < n && NewestFresh(orders[..n], i, user, plan, now) && !IsFresh(orders[n], user, plan, now)
        ensures NewestFresh(orders, i, user, plan, now)
      {
        assert forall k :: 0 <= k < n ==> orders[..n][k] == orders[k];
      }
    }
  }

  /** Moving on inside, or out, keeps the lock bookkeeping. */
  lemma LocksTo(s: State, t: nat, p: Phase)
    requires LocksOk(s) && Inside(s, t) && !p.Over?
    ensures LocksOk(To(s, t, p))
  {
  }

  lemma LocksLeave(s: State, t: nat)
    requires LocksOk(s) && Inside(s, t)
    ensures LocksOk(Leave(s, t))
  {
  }

  /** The books do not notice a step that touches neither them nor an insert under way. */
  lemma BooksFollow(s: State, n: State)
    requires BooksOk(s)
    requires n.orders == s.orders && n.remote == s.remote && n.cancelled == s.cancelled && n.shown == s.shown
    requires forall t :: Inside(s, t) && s.taps[t].phase.Inserting? ==>
      t in n.taps && n.taps[t].phase == s.taps[t].phase
    ensures BooksOk(n)
  {
  }

  lemma PressKeepsInv(s: State, t: nat, user: string, plan: Plan)
    requires Inv(s) && t !in s.taps && user !in s.locks
    ensures Inv(Next(s, Press(t, user, plan)))
  {
    var n := Next(s, Press(t, user, plan));
    BooksFollow(s, n);
    hide BooksOk;
    assert LocksOk(n);
    assert TapsOk(n);
  }

  lemma LookKeepsInv(s: State, t: nat)
    requires Inv(s) && Inside(s, t) && s.taps[t].phase.Looking?
    ensures Inv(Next(s, Look(t)))
  {
    var found := FindFresh(s.orders, s.taps[t].user, s.taps[t].plan, s.now);
    FindFreshFinds(s.orders, s.taps[t].user, s.taps[t].plan, s.now);
    if found.Some? {
      OrderIsRecorded(s, found.value);
      PhaseKeepsInv(s, t, Showing(found.value.uuid));
    } else {
      PhaseKeepsInv(s, t, Creating(s.now));
    }
  }

  lemma OrderIsRecorded(s: State, o: Order)
    requires BooksOk(s) && o in s.orders
    ensures Recorded(s, o.uuid)
  {
  }

  /** A step into a phase whose promise already holds. */
  lemma PhaseKeepsInv(s: State, t: nat, p: Phase)
    requires Inv(s) && Inside(s, t) && !s.taps[t].phase.Inserting? && !p.Over?
    requires TapOk(To(s, t, p), t)
    ensures Inv(To(s, t, p))
  {
    var n := To(s, t, p);
    LocksTo(s, t, p);
    BooksFollow(s, n);
    hide BooksOk, LocksOk;
    assert forall u :: u in n.taps && u != t ==> TapOk(s, u);
  }

  lemma LeaveKeepsInv(s: State, t: nat)
    requires Inv(s) && Inside(s, t) && !s.taps[t].phase.Inserting?
    ensures Inv(Leave(s, t))
  {
    var n := Leave(s, t);
    LocksLeave(s, t);
    BooksFollow(s, n);
    hide BooksOk, LocksOk;
    assert forall u :: u in n.taps && u != t ==> TapOk(s, u);
  }

  /** An order appears at the provider, and the tap that had it created is about to insert it. */
  lemma CreateAnsweredKeepsInv(s: State, t: nat, uuid: string)
    requires Inv(s) && Inside(s, t) && s.taps[t].phase.Creating? && uuid !in s.remote
    ensures Inv(Next(s, CreateAnswered(t, uuid)))
  {
    var p := Inserting(s.taps[t].phase.lookedAt, uuid);
    var n := Next(s, CreateAnswered(t, uuid));
    LocksTo(s, t, p);
    assert LocksOk(n);
    NewRemoteKeepsBooks(s, n, uuid);
    hide BooksOk, LocksOk;
    assert uuid !in s.cancelled by { CancelledIsRemote(s, uuid); }
    assert forall u :: u in n.taps && u != t ==> TapOk(s, u);
  }

  lemma CancelledIsRemote(s: State, uuid: string)
    requires BooksOk(s) && uuid !in s.remote
    ensures uuid !in s.cancelled
  {
  }

  lemma NewRemoteKeepsBooks(s: State, n: State, uuid: string)
    requires BooksOk(s) && uuid !in s.remote && uuid in n.remote
    requires n.remote == s.remote[uuid := n.remote[uuid]] && n.remote[uuid].row.None?
    requires n.remote[uuid].answered ==>
      var t := n.remote[uuid].tap;
      Inside(n, t) && n.taps[t].phase.Inserting? && n.taps[t].phase.uuid == uuid
    requires n.orders == s.orders && n.cancelled == s.cancelled && n.shown == s.shown
    requires forall t :: Inside(s, t) && s.taps[t].phase.Inserting? ==>
      t in n.taps && n.taps[t].phase == s.taps[t].phase
    ensures BooksOk(n)
  {
  }

  /** A remote order nobody was told about changes no promise. */
  lemma UnansweredRemoteKeepsInv(s: State, t: nat, uuid: string)
    requires Inv(s) && uuid !in s.remote
    ensures Inv(s.(remote := s.remote[uuid := Remote(t, false, None)]))
  {
  }

  /** The row of an insert, heard of or not, appears in the books. */
  lemma StoreKeepsBooks(s: State, n: State, t: nat, unheard: bool)
    requires BooksOk(s) && Inside(s, t) && s.taps[t].phase.Inserting? && TapOk(s, t)
    requires var uuid := s.taps[t].phase.uuid;
             var stored := Store(s, uuid, s.taps[t], unheard);
             && n.orders == stored.orders && n.remote == stored.remote && n.shown == s.shown
             && n.cancelled == (if unheard then s.cancelled + {uuid} else s.cancelled)
    requires forall u :: Inside(s, u) && u != t && s.taps[u].phase.Inserting? ==>
      u in n.taps && n.taps[u].phase == s.taps[u].phase
    ensures BooksOk(n)
  {
    var uuid := s.taps[t].phase.uuid;
    forall u | u in n.remote
      ensures RemoteOk(n, u, n.remote[u])
    {
      assert RemoteOk(s, u, s.remote[u]);
    }
    forall i | 0 <= i < |n.orders|
      ensures OrderOk(n, i, n.orders[i])
    {
      assert i < |s.orders| ==> OrderOk(s, i, s.orders[i]);
    }
    StoreKeepsSpacing(s, n, t);
  }

  lemma StoreKeepsSpacing(s: State, n: State, t: nat)
    requires Spaced(s.orders) && Inside(s, t) && s.taps[t].phase.Inserting? && TapOk(s, t)
    requires |n.orders| == |s.orders| + 1 && n.orders[..|s.orders|] == s.orders
    requires n.orders[|s.orders|].user == s.taps[t].user && n.orders[|s.orders|].plan == s.taps[t].plan
    requires n.orders[|s.orders|].createdAt == s.now
    ensures Spaced(n.orders)
  {
  }

  lemma OtherTapsKept(s: State, n: State, t: nat, unheard: bool)
    requires TapsOk(s) && LocksOk(s) && Inside(s, t) && s.taps[t].phase.Inserting?
    requires var uuid := s.taps[t].phase.uuid;
             var stored := Store(s, uuid, s.taps[t], unheard);
             && n.now == s.now && n.orders == stored.orders && n.remote == stored.remote
             && n.cancelled <= s.cancelled + {uuid}
    requires n.taps.Keys == s.taps.Keys && forall u :: u in s.taps && u != t ==> n.taps[u] == s.taps[u]
    ensures forall u :: u in n.taps && u != t ==> TapOk(n, u)
  {
  }

  lemma StoreKeepsInv(s: State, t: nat)
    requires Inv(s) && Inside(s, t) && s.taps[t].phase.Inserting?
    ensures Inv(To(Store(s, s.taps[t].phase.uuid, s.taps[t], false), t, Showing(s.taps[t].phase.uuid)))
  {
    var uuid := s.taps[t].phase.uuid;
    var n := To(Store(s, uuid, s.taps[t], false), t, Showing(uuid));
    assert TapOk(s, t);
    LocksTo(s, t, Showing(uuid));
    assert LocksOk(n);
    StoreKeepsBooks(s, n, t, false);
    OtherTapsKept(s, n, t, false);
  }

  lemma InsertLostKeepsInv(s: State, t: nat)
    requires Inv(s) && Inside(s, t) && s.taps[t].phase.Inserting?
    ensures Inv(Leave(s, t).(cancelled := s.cancelled + {s.taps[t].phase.uuid}))
  {
    var n := Leave(s, t).(cancelled := s.cancelled + {s.taps[t].phase.uuid});
    assert TapOk(s, t);
    LocksLeave(s, t);
    assert LocksOk(n);
    assert TapsOk(n);
    assert BooksOk(n);
  }

  lemma InsertUnheardKeepsInv(s: State, t: nat)
    requires Inv(s) && Inside(s, t) && s.taps[t].phase.Inserting?
    ensures var uuid := s.taps[t].phase.uuid;
            Inv(Leave(Store(s, uuid, s.taps[t], true), t).(cancelled := s.cancelled + {uuid}))
  {
    var uuid := s.taps[t].phase.uuid;
    var n := Leave(Store(s, uuid, s.taps[t], true), t).(cancelled := s.cancelled + {uuid});
    assert TapOk(s, t);
    LocksLeave(s, t);
    assert LocksOk(n);
    StoreKeepsBooks(s, n, t, true);
    OtherTapsKept(s, n, t, true);
  }

  /** A paid, expired or cancelled order only leaves the pending ones. */
  lemma StatusKeepsInv(s: State, i: nat)
    requires Inv(s) && i < |s.orders|
    ensures Inv(Next(s, StatusChanges(i)))
  {
    var n := Next(s, StatusChanges(i));
    assert LocksOk(n);
    StatusKeepsBooks(s, n, i);
    hide BooksOk, LocksOk;
    forall t | t in n.taps
      ensures TapOk(n, t)
    {
      assert TapOk(s, t);
    }
  }

  lemma StatusKeepsBooks(s: State, n: State, i: nat)
    requires BooksOk(s) && i < |s.orders| && n == s.(orders := s.orders[i := s.orders[i].(pending := false)])
    ensures BooksOk(n)
  {
  }

  lemma ShowKeepsInv(s: State, t: nat, shown: bool)
    requires Inv(s) && Inside(s, t) && s.taps[t].phase.Showing?
    ensures Inv(Next(s, Show(t, shown)))
  {
    assert TapOk(s, t);
    LeaveKeepsInv(s, t);
    var n := Next(s, Show(t, shown));
    assert BooksOk(n);
  }

  lemma TickKeepsInv(s: State, ms: nat)
    requires Inv(s)
    ensures Inv(Next(s, Tick(ms)))
  {
  }

  lemma StepKeepsInv(s: State, a: Action)
    requires Inv(s)
    ensures Inv(Next(s, a))
  {
    hide BooksOk, LocksOk, NoneFreshAt;
    match a {
      case Tick(ms) => TickKeepsInv(s, ms);
      case Press(t, user, plan) => if t !in s.taps && user !in s.locks { PressKeepsInv(s, t, user, plan); }
      case Throw(t) => if Inside(s, t) && s.taps[t].phase.Looking? { LeaveKeepsInv(s, t); }
      case Look(t) => if Inside(s, t) && s.taps[t].phase.Looking? { LookKeepsInv(s, t); }
      case CreateAnswered(t, uuid) =>
        if Inside(s, t) && s.taps[t].phase.Creating? && uuid !in s.remote { CreateAnsweredKeepsInv(s, t, uuid); }
      case CreateThrew(t, landed) =>
        if Inside(s, t) && s.taps[t].phase.Creating? && (landed.Some? ==> landed.value !in s.remote) {
          LeaveKeepsInv(s, t);
          if landed.Some? { UnansweredRemoteKeepsInv(Leave(s, t), t, landed.value); }
        }
      case Insert(t, w) =>
        if Inside(s, t) && s.taps[t].phase.Inserting? {
          assert TapOk(s, t);
          if w.Stored? {
            StoreKeepsInv(s, t);
          } else if w.applied {
            InsertUnheardKeepsInv(s, t);
          } else {
            InsertLostKeepsInv(s, t);
          }
        }
      case Show(t, shown) => if Inside(s, t) && s.taps[t].phase.Showing? { ShowKeepsInv(s, t, shown); }
      case StatusChanges(i) => if i < |s.orders| { StatusKeepsInv(s, i); }
    }
  }

  lemma {:induction false} RunKeepsInv(now: int, actions: seq<Action>)
    ensures Inv(Run(now, actions))
  {
    if actions != [] {
      RunKeepsInv(now, actions[..|actions| - 1]);
      StepKeepsInv(Run(now, actions[..|actions| - 1]), actions[|actions| - 1]);
    }
  }

  /******* The promises *******/

  predicate HasRow(orders: seq<Order>, link: Link) {
    exists j :: 0 <= j < |orders| && orders[j].uuid == link.uuid && orders[j].user == link.user
                && orders[j].plan == link.plan
  }

  predicate Quiet(s: State) {
    forall t :: t in s.taps ==> s.taps[t].phase.Over?
  }

  /** Over every interleaving: two orders for one user's plan are created at least fifteen minutes
      apart while the earlier one stays pending; every pay link shown is of a recorded order of the user
      and plan it was shown for;
      and once no tap is inside, no lock is held. */
  lemma OrdersAreSpacedLinksRecordedLocksReleased(now: int, actions: seq<Action>)
    ensures var s := Run(now, actions);
            && Spaced(s.orders)
            && (forall i :: 0 <= i < |s.shown| ==> HasRow(s.orders, s.shown[i]))
            && (Quiet(s) ==> s.locks == map[])
  {
    RunKeepsInv(now, actions);
    var s := Run(now, actions);
    forall i | 0 <= i < |s.shown|
      ensures HasRow(s.orders, s.shown[i])
    {
      var link := s.shown[i];
      assert RecordedFor(s, link.uuid, link.user, link.plan) && RemoteOk(s, link.uuid, s.remote[link.uuid]);
      var j := s.remote[link.uuid].row.value;
      assert 0 <= j < |s.orders| && s.orders[j].uuid == link.uuid;
    }
  }

  /** Once no tap is inside, an unrecorded order at the provider had a cancel attempted exactly when
      its creation was answered: one whose creation threw after it took effect is never cancelled. */
  lemma UnrecordedOrdersAreCancelledIffAnswered(now: int, actions: seq<Action>, uuid: string)
    ensures var s := Run(now, actions);
            Quiet(s) && uuid in s.remote && !Recorded(s, uuid) ==> (uuid in s.cancelled <==> s.remote[uuid].answered)
  {
    RunKeepsInv(now, actions);
    var s := Run(now, actions);
    if uuid in s.remote {
      assert RemoteOk(s, uuid, s.remote[uuid]);
    }
  }

  /** A recorded order was cancelled at the provider exactly when the insert that stored it threw.
      Its row stays pending, so its link can still be shown. */
  lemma RecordedOrdersAreCancelledIffUnheard(now: int, actions: seq<Action>, i: nat)
    ensures var s := Run(now, actions);
            i < |s.orders| ==> (s.orders[i].uuid in s.cancelled <==> s.orders[i].unheard)
  {
    RunKeepsInv(now, actions);
    var s := Run(now, actions);
    assert i < |s.orders| ==> OrderOk(s, i, s.orders[i]);
  }

  /** The ways out of the try block: a throw before the lookup, a creation that throws, an insert that throws,
      and the edit that shows the link, whether it goes through or not. */
  predicate Ends(s: State, a: Action, t: nat)
    requires Inside(s, t)
  {
    match s.taps[t].phase
    case Looking => a == Throw(t)
    case Creating(_) => a.CreateThrew? && a.tap == t && (a.landed.Some? ==> a.landed.value !in s.remote)
    case Inserting(_, _) => a.Insert? && a.tap == t && a.write.Threw?
    case Showing(_) => a.Show? && a.tap == t
  }

  predicate Touches(a: Action, t: nat) {
    !a.Tick? && !a.StatusChanges? && a.tap == t
  }

  lemma OwnStep(s: State, a: Action, t: nat)
    requires Inside(s, t) && Touches(a, t)
    ensures var n := Next(s, a);
            && t in n.taps && n.taps[t].user == s.taps[t].user
            && (n.taps[t].phase.Over? <==> Ends(s, a, t))
            && n.locks == if Ends(s, a, t) then s.locks - {s.taps[t].user} else s.locks
  {
    hide FindFresh;
  }

  lemma OtherStep(s: State, a: Action, t: nat)
    requires LocksOk(s) && Inside(s, t) && !Touches(a, t)
    ensures var n := Next(s, a);
            && t in n.taps && n.taps[t] == s.taps[t] && s.taps[t].user in n.locks && !Ends(s, a, t)
  {
    if !a.Tick? && !a.StatusChanges? && Inside(s, a.tap) {
      assert s.locks[s.taps[a.tap].user] == a.tap && s.locks[s.taps[t].user] == t;
    }
    hide LocksOk, FindFresh;
  }

  /** Each of them ends the tap and frees its user's lock, and nothing else does either. */
  lemma EveryWayOutUnlocks(now: int, actions: seq<Action>, a: Action, t: nat)
    requires Inside(Run(now, actions), t)
    ensures var s, n := Run(now, actions), Run(now, actions + [a]);
            && t in n.taps && n.taps[t].user == s.taps[t].user
            && (n.taps[t].phase.Over? <==> Ends(s, a, t))
            && (s.taps[t].user !in n.locks <==> Ends(s, a, t))
  {
    hide Next, Ends;
    RunOne(now, actions, a);
    RunKeepsInv(now, actions);
    if Touches(a, t) {
      assert LocksOk(Run(now, actions));
      OwnStep(Run(now, actions), a, t);
    } else {
      OtherStep(Run(now, actions), a, t);
    }
  }

  /** One tap inside, its order answered by the provider and not yet inserted. */
  function Ordered(user: string, plan: Plan, uuid: string): State {
    var taps := map[0 := Tap(user, plan, Inserting(1, uuid))];
    State(1, map[user := 0], taps, [], map[uuid := Remote(0, true, None)], {}, [])
  }

  /** Reachable: the insert stores the row and throws, the order is cancelled, and the next tap
      within fifteen minutes is shown the cancelled order's link. */
  lemma CancelledLinkIsShown(user: string, plan: Plan, uuid: string)
    ensures var s0 := Initial(1);
            var s1 := Next(Next(Next(s0, Press(0, user, plan)), Look(0)), CreateAnswered(0, uuid));
            var s2 := Next(s1, Insert(0, Threw("timeout", true)));
            var s3 := Next(Next(Next(s2, Press(1, user, plan)), Look(1)), Show(1, true));
            s3.shown == [Link(user, plan, uuid)] && uuid in s3.cancelled
  {
    var s1 := Ordered(user, plan, uuid);
    FirstTapCreates(user, plan, uuid);
    StoredThenCancelled(s1, user, plan, uuid);
    SecondTapIsShown(Next(s1, Insert(0, Threw("timeout", true))), user, plan, uuid);
  }

  lemma FirstTapCreates(user: string, plan: Plan, uuid: string)
    ensures Next(Next(Next(Initial(1), Press(0, user, plan)), Look(0)), CreateAnswered(0, uuid))
            == Ordered(user, plan, uuid)
  {
  }

  lemma SecondTapIsShown(s: State, user: string, plan: Plan, uuid: string)
    requires s.now == 1 && s.orders == [Order(uuid, user, plan, 1, true, true)] && s.locks == map[]
    requires s.shown == [] && s.taps == map[0 := Tap(user, plan, Over)]
    ensures var n := Next(Next(Next(s, Press(1, user, plan)), Look(1)), Show(1, true));
            n.shown == [Link(user, plan, uuid)] && n.cancelled == s.cancelled
  {
  }

  lemma StoredThenCancelled(s: State, user: string, plan: Plan, uuid: string)
    requires s == Ordered(user, plan, uuid)
    ensures var n := Next(s, Insert(0, Threw("timeout", true)));
            && n.now == 1 && n.orders == [Order(uuid, user, plan, 1, true, true)] && n.locks == map[]
            && n.cancelled == {uuid}
            && n.shown == [] && n.taps == map[0 := Tap(user, plan, Over)]
  {
  }

  /** Reachable: the provider creates the order and its answer is lost. No row records it and nothing ever
      cancels it. */
  lemma UnheardOrderStays(user: string, plan: Plan, uuid: string)
    ensures var s := Run(1, [Press(0, user, plan), Look(0), CreateThrew(0, Some(uuid))]);
            Quiet(s) && uuid in s.remote && !Recorded(s, uuid) && s.cancelled == {} && s.orders == []
  {
    hide Next;
    var press, look, threw := Press(0, user, plan), Look(0), CreateThrew(0, Some(uuid));
    FirstLook(user, plan);
    CreationThrows(Looked(user, plan), uuid);
    RunOne(1, [], press);
    RunOne(1, [press], look);
    RunOne(1, [press, look], threw);
    assert [] + [press] == [press] && [press] + [look] == [press, look];
    assert [press, look] + [threw] == [press, look, threw];
  }

  /** One tap inside that found no fresh order. */
  function Looked(user: string, plan: Plan): State {
    State(1, map[user := 0], map[0 := Tap(user, plan, Creating(1))], [], map[], {}, [])
  }

  lemma FirstLook(user: string, plan: Plan)
    ensures Next(Next(Initial(1), Press(0, user, plan)), Look(0)) == Looked(user, plan)
  {
  }

  lemma CreationThrows(s: State, uuid: string)
    requires Inside(s, 0) && s.taps[0].phase.Creating? && s.taps.Keys == {0} && s.remote == map[]
    ensures var n := Next(s, CreateThrew(0, Some(uuid)));
            && Quiet(n) && n.remote == map[uuid := Remote(0, false, None)]
            && n.cancelled == s.cancelled && n.orders == s.orders
  {
  }

  lemma RunOne(now: int, actions: seq<Action>, a: Action)
    ensures Run(now, actions + [a]) == Next(Run(now, actions), a)
  {
    assert (actions + [a])[..|actions|] == actions;
  }
}
