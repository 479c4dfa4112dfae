/** apps/web/components/support-chat.tsx: the message list of an open support chat, and the merge
    that has to absorb polls which were answered before the latest send arrived. */
module SupportChat {
  import opened Wrappers
  import opened StableSort

  datatype Direction = In | Out

  datatype DeliveryStatus = MsgPending | MsgSent | MsgFailed

  /** Text and update time are of no interest to the merge; createdAt is a valid date in ms. */
  datatype Message = Message(id: string, direction: Direction, dedupeKey: Option<string>, createdAt: int,
                             status: DeliveryStatus)

  /** key.split(":").at(-1) */
  function AfterLastColon(key: string): (r: string)
    ensures forall i :: 0 <= i < |r| ==> r[i] != ':'
    ensures |r| <= |key| && key[|key| - |r|..] == r
    ensures |r| < |key| ==> key[|key| - |r| - 1] == ':'
  {
    if key == "" || key[|key| - 1] == ':' then ""
    else AfterLastColon(key[..|key| - 1]) + [key[|key| - 1]]
  }

  function ClientId(m: Message): Option<string> {
    if m.direction != In || m.dedupeKey.None? || m.dedupeKey.value == "" then None
    else Some(AfterLastColon(m.dedupeKey.value))
  }

  predicate IsOptimistic(m: Message) {
    "pending:" <= m.id
  }

  /** The set drops empty ids. */
  function ServerIds(server: seq<Message>): set<string> {
    set m | m in server && ClientId(m).Some? && ClientId(m).value != "" :: ClientId(m).value
  }

  /** An optimistic row the server does not know yet. */
  predicate LocalOnly(m: Message, ids: set<string>) {
    IsOptimistic(m) && ClientId(m).Some? && ClientId(m).value !in ids
  }

  function CreatedAt(): Message -> Key {
    (m: Message) => m.createdAt
  }

  function IsLocalOnly(ids: set<string>): Message -> bool {
    (m: Message) => LocalOnly(m, ids)
  }

  function Unacknowledged(current: seq<Message>, ids: set<string>): seq<Message> {
    Filter(IsLocalOnly(ids), current)
  }

  function Merge(server: seq<Message>, current: seq<Message>): seq<Message> {
    Sort(CreatedAt(), server + Unacknowledged(current, ServerIds(server)))
  }

  /** A row's client id is what stands behind the last colon of its key, if it came from the user. */
  lemma ClientIdIs(m: Message, id: string)
    requires forall i :: 0 <= i < |id| ==> id[i] != ':'
    ensures ClientId(m) == Some(id) <==>
            && m.direction == In && m.dedupeKey.Some? && m.dedupeKey.value != ""
            && (m.dedupeKey.value == id || EndsIn(m.dedupeKey.value, ":" + id))
  {
    if m.dedupeKey.Some? {
      var key := m.dedupeKey.value;
      LastColon(key, id);
    }
  }

  predicate EndsIn(s: string, end: string) {
    |end| <= |s| && s[|s| - |end|..] == end
  }

  lemma LastColon(key: string, id: string)
    requires forall i :: 0 <= i < |id| ==> id[i] != ':'
    ensures AfterLastColon(key) == id <==> key == id || EndsIn(key, ":" + id)
  {
    var r := AfterLastColon(key);
    if EndsIn(key, ":" + id) {
      var front := key[..|key| - |id| - 1];
      assert key == front + ":" + id by { assert key == front + (":" + id); }
      BehindColon(front, id);
    }
    if key == id {
      NoColonAtAll(id);
    }
    if r == id && |r| < |key| {
      assert key[|key| - |r| - 1..] == [':'] + r;
    }
  }

  lemma {:induction false} BehindColon(front: string, id: string)
    requires forall i :: 0 <= i < |id| ==> id[i] != ':'
    ensures AfterLastColon(front + ":" + id) == id
  {
    if id != "" {
      var n := |id| - 1;
      BehindColon(front, id[..n]);
      assert (front + ":" + id)[..|front| + 1 + n] == front + ":" + id[..n];
    }
  }

  lemma {:induction false} NoColonAtAll(id: string)
    requires forall i :: 0 <= i < |id| ==> id[i] != ':'
    ensures AfterLastColon(id) == id
  {
    if id != "" {
      NoColonAtAll(id[..|id| - 1]);
    }
  }

  lemma LocalOnlyMeans(server: seq<Message>)
    ensures forall m :: LocalOnly(m, ServerIds(server)) <==>
      && "pending:" <= m.id && ClientId(m).Some?
      && (ClientId(m) == Some("") || forall s :: s in server ==> ClientId(s) != ClientId(m))
  {
    hide ClientId;
  }

  /******* What the merge shows *******/

  /** The server's rows and exactly the unacknowledged optimistic rows, each as often as it came, in
      creation order, and rows of one instant in the order server first, then as they were shown. */
  lemma MergeIsExact(server: seq<Message>, current: seq<Message>, k: Key)
    ensures var r := Merge(server, current);
            var local := Unacknowledged(current, ServerIds(server));
            && multiset(r) == multiset(server) + multiset(local)
            && Sorted(CreatedAt(), r)
            && WithKey(CreatedAt(), r, k) == WithKey(CreatedAt(), server, k) + WithKey(CreatedAt(), local, k)
    ensures forall m :: m in Merge(server, current) <==>
      || m in server
      || (&& m in current && "pending:" <= m.id && ClientId(m).Some?
          && (ClientId(m) == Some("") || forall s :: s in server ==> ClientId(s) != ClientId(m)))
  {
    LocalOnlyMeans(server);
    var local := Unacknowledged(current, ServerIds(server));
    SortSorts(CreatedAt(), server + local);
    SortIsStable(CreatedAt(), server + local, k);
    WithKeyConcat(CreatedAt(), server, local, k);
    forall m | m in current && LocalOnly(m, ServerIds(server))
      ensures m in local
    {
      FilterKeeps(IsLocalOnly(ServerIds(server)), current, m);
    }
    forall m
      ensures m in Merge(server, current) <==> m in server + local
    {
      assert m in multiset(Merge(server, current)) <==> m in multiset(server + local);
    }
  }

  /******* Stale polls *******/

  /** A server row that passes for an optimistic one: its id begins with "pending:" and its client
      id is not among ids. */
  predicate Impostor(m: Message, ids: set<string>) {
    LocalOnly(m, ids)
  }

  predicate NoImpostor(server: seq<Message>, ids: set<string>) {
    forall m :: m in server ==> !Impostor(m, ids)
  }

  lemma {:induction false} FilterNone<T>(p: T -> bool, xs: seq<T>)
    requires forall x :: x in xs ==> !p(x)
    ensures Filter(p, xs) == []
  {
    if xs != [] {
      FilterNone(p, xs[1..]);
    }
  }

  /** Filtering twice is filtering once when the second condition is the stronger. */
  lemma {:induction false} FilterTwice<T>(p: T -> bool, q: T -> bool, xs: seq<T>)
    requires forall x :: q(x) ==> p(x)
    ensures Filter(q, Filter(p, xs)) == Filter(q, xs)
  {
    if xs != [] {
      FilterTwice(p, q, xs[1..]);
      var rest := Filter(p, xs[1..]);
      if p(xs[0]) {
        assert Filter(p, xs) == [xs[0]] + rest && ([xs[0]] + rest)[1..] == rest;
      } else {
        assert Filter(p, xs) == rest;
      }
    }
  }

  lemma {:induction false} FilterNoneIff<T>(p: T -> bool, xs: seq<T>)
    ensures Filter(p, xs) == [] <==> forall x :: x in xs ==> !p(x)
  {
    if xs != [] {
      FilterNoneIff(p, xs[1..]);
    }
  }

  /** An older poll leaves no trace once a newer one is merged: what the older one knew, the newer
      one knows too. It holds exactly unless a row of the older poll passes for an optimistic one. */
  lemma MergeAbsorbsStalePolls(older: seq<Message>, newer: seq<Message>, current: seq<Message>)
    requires ServerIds(older) <= ServerIds(newer)
    ensures Merge(newer, Merge(older, current)) == Merge(newer, current) <==> NoImpostor(older, ServerIds(newer))
  {
    var p := IsLocalOnly(ServerIds(older));
    var q := IsLocalOnly(ServerIds(newer));
    var local := Filter(p, current);
    SortFilter(CreatedAt(), q, older + local);
    FilterConcat(q, older, local);
    FilterTwice(p, q, current);
    FilterNoneIff(q, older);
    var kept := Filter(q, older) + Filter(q, current);
    SortSuffix(CreatedAt(), newer, kept);
    SortKeepsLength(CreatedAt(), newer + kept);
    SortKeepsLength(CreatedAt(), newer + Filter(q, current));
    assert Filter(q, older) == [] ==> kept == Filter(q, current);
  }

  /** The send route admits only UUIDs as client ids, so no row of a poll has an empty one, and stale polls
      are always absorbed. */
  lemma NamedPollsAreAbsorbed(older: seq<Message>, newer: seq<Message>, current: seq<Message>)
    requires ServerIds(older) <= ServerIds(newer)
    requires forall m :: m in older ==> ClientId(m) != Some("")
    ensures Merge(newer, Merge(older, current)) == Merge(newer, current)
  {
    forall m | m in older
      ensures !Impostor(m, ServerIds(newer))
    {
      assert ClientId(m).Some? ==> ClientId(m).value in ServerIds(older);
    }
    MergeAbsorbsStalePolls(older, newer, current);
  }

  /** Merging the same poll again changes nothing, exactly unless a row of it passes for an
      optimistic one. */
  lemma MergeIsIdempotent(server: seq<Message>, current: seq<Message>)
    ensures Merge(server, Merge(server, current)) == Merge(server, current) <==> NoImpostor(server, ServerIds(server))
  {
    MergeAbsorbsStalePolls(server, server, current);
  }

  /******* Client ids stay unique *******/

  /** No two rows carry the same client id. */
  predicate UniqueIds(rows: seq<Message>) {
    forall i, j :: 0 <= i < j < |rows| && ClientId(rows[i]).Some? ==> ClientId(rows[i]) != ClientId(rows[j])
  }

  function HasClientId(id: string): Message -> bool {
    (m: Message) => ClientId(m) == Some(id)
  }

  function WithClientId(rows: seq<Message>, id: string): seq<Message> {
    Filter(HasClientId(id), rows)
  }

  lemma {:induction false} UniqueMeansAtMostOne(rows: seq<Message>, id: string)
    requires UniqueIds(rows)
    ensures |WithClientId(rows, id)| <= 1
  {
    if rows != [] {
      UniqueMeansAtMostOne(rows[1..], id);
      if ClientId(rows[0]) == Some(id) {
        forall m | m in rows[1..]
          ensures ClientId(m) != Some(id)
        {
          var j :| 0 <= j < |rows| - 1 && rows[1..][j] == m;
          assert rows[j + 1] == m;
        }
        FilterNone(HasClientId(id), rows[1..]);
      }
    }
  }

  lemma {:induction false} TwoRowsCountTwice(rows: seq<Message>, i: nat, j: nat, id: string)
    requires i < j < |rows| && ClientId(rows[i]) == Some(id) && ClientId(rows[j]) == Some(id)
    ensures |WithClientId(rows, id)| >= 2
  {
    FirstRow(rows, id);
    if i > 0 {
      TwoRowsCountTwice(rows[1..], i - 1, j - 1, id);
    } else {
      assert rows[1..][j - 1] == rows[j];
      FilterKeeps(HasClientId(id), rows[1..], rows[j]);
    }
  }

  lemma FirstRow(rows: seq<Message>, id: string)
    requires rows != []
    ensures |WithClientId(rows, id)| == |WithClientId(rows[1..], id)| + if ClientId(rows[0]) == Some(id) then 1 else 0
  {
  }

  predicate HasEmptyId(rows: seq<Message>) {
    exists m :: m in rows && ClientId(m) == Some("")
  }

  predicate HasOptimisticEmptyId(rows: seq<Message>) {
    exists m :: m in rows && IsOptimistic(m) && ClientId(m) == Some("")
  }

  /** If the poll and the list shown each have unique client ids, the merge has too, exactly unless
      both carry an empty one: the set of server ids does not hold it. */
  lemma MergeKeepsIdsUnique(server: seq<Message>, current: seq<Message>)
    requires UniqueIds(server) && UniqueIds(current)
    ensures UniqueIds(Merge(server, current)) <==> !(HasEmptyId(server) && HasOptimisticEmptyId(current))
  {
    var r, local := Merge(server, current), Unacknowledged(current, ServerIds(server));
    if HasEmptyId(server) && HasOptimisticEmptyId(current) {
      var m :| m in server && ClientId(m) == Some("");
      var n :| n in current && IsOptimistic(n) && ClientId(n) == Some("");
      FilterKeeps(IsLocalOnly(ServerIds(server)), current, n);
      FilterKeeps(HasClientId(""), server, m);
      FilterKeeps(HasClientId(""), local, n);
      CountInMerge(server, current, "");
      if UniqueIds(r) {
        UniqueMeansAtMostOne(r, "");
      }
    } else {
      forall i, j | 0 <= i < j < |r| && ClientId(r[i]).Some?
        ensures ClientId(r[i]) != ClientId(r[j])
      {
        var id := ClientId(r[i]).value;
        AtMostOneInMerge(server, current, id);
        if ClientId(r[i]) == ClientId(r[j]) {
          TwoRowsCountTwice(r, i, j, id);
        }
      }
    }
  }

  lemma AtMostOneInMerge(server: seq<Message>, current: seq<Message>, id: string)
    requires UniqueIds(server) && UniqueIds(current)
    requires id != "" || !HasEmptyId(server) || !HasOptimisticEmptyId(current)
    ensures |WithClientId(Merge(server, current), id)| <= 1
  {
    var local := Unacknowledged(current, ServerIds(server));
    UniqueMeansAtMostOne(server, id);
    UniqueMeansAtMostOne(current, id);
    CountInMerge(server, current, id);
    FilterShrinks(HasClientId(id), IsLocalOnly(ServerIds(server)), current);
    if WithClientId(server, id) != [] {
      assert WithClientId(server, id)[0] in WithClientId(server, id);
      assert id != "" ==> id in ServerIds(server);
      FilterNone(HasClientId(id), local);
    }
  }

  lemma CountInMerge(server: seq<Message>, current: seq<Message>, id: string)
    ensures |WithClientId(Merge(server, current), id)|
            == |WithClientId(server, id)| + |WithClientId(Unacknowledged(current, ServerIds(server)), id)|
  {
    var p, local := HasClientId(id), Unacknowledged(current, ServerIds(server));
    SortFilter(CreatedAt(), p, server + local);
    FilterConcat(p, server, local);
    SortKeepsLength(CreatedAt(), Filter(p, server + local));
  }

  lemma {:induction false} FilterShrinks<T>(p: T -> bool, q: T -> bool, xs: seq<T>)
    ensures |Filter(p, Filter(q, xs))| <= |Filter(p, xs)|
  {
    if xs != [] {
      FilterShrinks(p, q, xs[1..]);
      var rest := Filter(q, xs[1..]);
      if q(xs[0]) {
        assert Filter(q, xs) == [xs[0]] + rest && ([xs[0]] + rest)[1..] == rest;
      } else {
        assert Filter(q, xs) == rest;
      }
    }
  }

  /******* The list over time *******/

  /** What the component does to the list: show an optimistic row (or put it back on a retry), let
      the answer to a send replace it or mark it failed, and merge a poll. */
  datatype Update =
    | Send(row: Message, retryOf: Option<string>)
    | Answered(optimistic: Message, stored: Message)
    | SendFailed(optimistic: Message)
    | Poll(server: seq<Message>)

  predicate SameSend(row: Message, optimistic: Message) {
    row.id == optimistic.id || ClientId(row) == ClientId(optimistic)
  }

  function MapRows(rows: seq<Message>, f: Message -> Message): (r: seq<Message>)
    ensures |r| == |rows| && forall i :: 0 <= i < |rows| ==> r[i] == f(rows[i])
  {
    if rows == [] then [] else [f(rows[0])] + MapRows(rows[1..], f)
  }

  function Apply(rows: seq<Message>, u: Update): seq<Message> {
    match u
    case Send(row, retryOf) =>
      if retryOf.Some? then MapRows(rows, (m: Message) => if m.id == retryOf.value then row else m) else rows + [row]
    case Answered(optimistic, stored) =>
      MapRows(rows, (m: Message) => if SameSend(m, optimistic) then stored else m)
    case SendFailed(optimistic) =>
      MapRows(rows, (m: Message) => if SameSend(m, optimistic) then m.(status := MsgFailed) else m)
    case Poll(server) => Merge(server, rows)
  }

  /** What the caller of each update sees to: a new message carries a new client id, a retry, an
      answer and a failure carry the client id of the row they are about, and the server does not
      repeat itself. */
  predicate Legal(rows: seq<Message>, u: Update) {
    match u
    case Send(row, retryOf) =>
      && ClientId(row).Some? && ClientId(row).value != ""
      && if retryOf.Some? then forall m :: m in rows && m.id == retryOf.value ==> ClientId(m) == ClientId(row)
         else forall m :: m in rows ==> ClientId(m) != ClientId(row)
    case Answered(optimistic, stored) =>
      && ClientId(stored) == ClientId(optimistic) && ClientId(optimistic).Some?
      && forall m :: m in rows && m.id == optimistic.id ==> ClientId(m) == ClientId(optimistic)
    case SendFailed(_) => true
    case Poll(server) => UniqueIds(server) && forall m :: m in server ==> ClientId(m) != Some("")
  }

  predicate WellNamed(rows: seq<Message>) {
    UniqueIds(rows) && forall m :: m in rows ==> ClientId(m) != Some("")
  }

  function Shown(updates: seq<Update>): seq<Message> {
    if updates == [] then [] else Apply(Shown(updates[..|updates| - 1]), updates[|updates| - 1])
  }

  lemma MapKeepsNames(rows: seq<Message>, f: Message -> Message)
    requires WellNamed(rows)
    requires forall m :: m in rows ==> ClientId(f(m)) == ClientId(m)
    ensures WellNamed(MapRows(rows, f))
  {
  }

  lemma ApplyKeepsNames(rows: seq<Message>, u: Update)
    requires WellNamed(rows) && Legal(rows, u)
    ensures WellNamed(Apply(rows, u))
  {
    match u {
      case Send(row, retryOf) =>
        if retryOf.Some? {
          MapKeepsNames(rows, (m: Message) => if m.id == retryOf.value then row else m);
        }
      case Answered(optimistic, stored) =>
        MapKeepsNames(rows, (m: Message) => if SameSend(m, optimistic) then stored else m);
      case SendFailed(optimistic) =>
        MapKeepsNames(rows, (m: Message) => if SameSend(m, optimistic) then m.(status := MsgFailed) else m);
      case Poll(server) =>
        MergeKeepsIdsUnique(server, rows);
        MergeIsExact(server, rows, 0);
    }
  }

  /** However sends, retries, answers and polls interleave, no message is ever shown twice. */
  lemma {:induction false} NoMessageShownTwice(updates: seq<Update>)
    requires forall n :: 0 <= n < |updates| ==> Legal(Shown(updates[..n]), updates[n])
    ensures WellNamed(Shown(updates))
  {
    if updates != [] {
      var n := |updates| - 1;
      var before := updates[..n];
      assert forall k :: 0 <= k < n ==> before[..k] == updates[..k];
      NoMessageShownTwice(before);
      ApplyKeepsNames(Shown(before), updates[n]);
    }
  }

  /** A poll drops a row it does not name exactly when the row is not an unacknowledged optimistic
      one. So no unsent message is lost to a poll. */
  lemma PollDropsExactly(rows: seq<Message>, server: seq<Message>, m: Message)
    requires m in rows && m !in server
    ensures m in Apply(rows, Poll(server)) <==> LocalOnly(m, ServerIds(server))
  {
    MergeIsExact(server, rows, 0);
  }

  /** What comes of a send happens in the place of its row and to no other, whether that is still the
      optimistic row or one a poll has put in its place: the answer puts the stored row
      there, a failure leaves the row as it was and marks it failed, and a retry puts the new row there. */
  lemma SendEndsInItsPlace(rows: seq<Message>, i: nat, optimistic: Message, stored: Message)
    requires WellNamed(rows) && i < |rows| && ClientId(rows[i]).Some?
    requires ClientId(optimistic) == ClientId(rows[i])
    requires forall j :: 0 <= j < |rows| && j != i ==> rows[j].id != rows[i].id && rows[j].id != optimistic.id
    ensures Apply(rows, Answered(optimistic, stored)) == rows[i := stored]
    ensures Apply(rows, Send(stored, Some(rows[i].id))) == rows[i := stored]
    ensures var failed := Apply(rows, SendFailed(optimistic));
            && |failed| == |rows| && failed[i].status == MsgFailed && failed[i].(status := rows[i].status) == rows[i]
            && forall j :: 0 <= j < |rows| && j != i ==> failed[j] == rows[j]
  {
    hide ClientId;
    forall j | 0 <= j < |rows| && j != i
      ensures !SameSend(rows[j], optimistic)
    {
      assert ClientId(rows[j]) != ClientId(rows[i]);
    }
  }

  predicate NoDuplicates(table: seq<Message>) {
    forall i, j :: 0 <= i < j < |table| ==> table[i] != table[j]
  }

  /** `table` is what the server stores, in the order of storing, and a poll answers with what was stored
      when the server read it. A row that replaced its optimistic one when its send was answered is shown
      after a poll if and only if the poll was read after the row was stored. */
  lemma AnsweredRowIsShownIffPollIsNewer(rows: seq<Message>, table: seq<Message>, i: nat, read: nat)
    requires NoDuplicates(table) && i < |table| && read <= |table|
    requires table[i] in rows && !IsOptimistic(table[i])
    ensures table[i] in Apply(rows, Poll(table[..read])) <==> i < read
  {
    if i < read {
      MergeIsExact(table[..read], rows, 0);
      assert table[..read][i] == table[i];
    } else {
      PollDropsExactly(rows, table[..read], table[i]);
    }
  }

  lemma MergeOfOne(m: Message)
    requires !IsOptimistic(m)
    ensures Merge([], [m]) == [] && Merge([m], []) == [m]
  {
    FilterNone(IsLocalOnly({}), [m]);
    assert ServerIds([]) == {} && Unacknowledged([], ServerIds([m])) == [];
    assert [m] + [] == [m] && [m][1..] == [];
  }

  lemma ShownOne(updates: seq<Update>, u: Update)
    ensures Shown(updates + [u]) == Apply(Shown(updates), u)
  {
    assert (updates + [u])[..|updates|] == updates;
  }

  const SENT := Message("pending:1", In, Some("web:pending:1"), 0, MsgPending)
  const STORED := Message("m1", In, Some("web:1"), 0, MsgSent)

  /** It happens: a message is sent, its send is answered, and then a poll arrives that was read before. The
      message is gone until the next poll. */
  lemma StalePollDropsAnsweredRow()
    ensures Shown([Send(SENT, None), Answered(SENT, STORED)]) == [STORED]
    ensures Shown([Send(SENT, None), Answered(SENT, STORED), Poll([])]) == []
    ensures Shown([Send(SENT, None), Answered(SENT, STORED), Poll([]), Poll([STORED])]) == [STORED]
    ensures Legal([], Send(SENT, None)) && Legal([SENT], Answered(SENT, STORED))
    ensures Legal([STORED], Poll([])) && Legal([], Poll([STORED]))
  {
    hide Shown, Apply, Legal;
    var updates := [Send(SENT, None)];
    assert Shown([]) == [] by { ShownNothing(); }
    FourSteps();
    ShownOne([], Send(SENT, None));
    assert [] + updates == updates;
    ShownOne(updates, Answered(SENT, STORED));
    ShownOne(updates + [Answered(SENT, STORED)], Poll([]));
    ShownOne(updates + [Answered(SENT, STORED)] + [Poll([])], Poll([STORED]));
    assert updates + [Answered(SENT, STORED)] == [Send(SENT, None), Answered(SENT, STORED)];
    assert updates + [Answered(SENT, STORED)] + [Poll([])] == [Send(SENT, None), Answered(SENT, STORED), Poll([])];
    assert updates + [Answered(SENT, STORED)] + [Poll([])] + [Poll([STORED])]
        == [Send(SENT, None), Answered(SENT, STORED), Poll([]), Poll([STORED])];
  }

  lemma FourSteps()
    ensures Apply([], Send(SENT, None)) == [SENT] && Apply([SENT], Answered(SENT, STORED)) == [STORED]
    ensures Apply([STORED], Poll([])) == [] && Apply([], Poll([STORED])) == [STORED]
    ensures Legal([], Send(SENT, None)) && Legal([SENT], Answered(SENT, STORED))
    ensures Legal([STORED], Poll([])) && Legal([], Poll([STORED]))
  {
    hide Merge, ClientId;
    LegalNames();
    MergeOfOne(STORED);
  }

  lemma ShownNothing()
    ensures Shown([]) == []
  {
  }

  lemma LegalNames()
    ensures ClientId(SENT) == Some("1") && ClientId(STORED) == Some("1")
  {
  }
}
