/** apps/bot/src/index.ts, pollUpdates: which updates reach handleUpdate, whatever throws. */
module UpdateLoop {
  import opened Wrappers

  /** How one poll goes: the long poll fails, or brings `count` updates, of which the handler of the
      one at `throwsAt` throws. */
  datatype Poll =
    | RequestFails
    | Batch(count: nat, throwsAt: Option<nat>)

  datatype State = State(offset: Option<int>, handled: seq<int>)

  predicate Increasing(ids: seq<int>) {
    forall i, j :: 0 <= i < j < |ids| ==> ids[i] < ids[j]
  }

  /** The server's side of getUpdates: its updates in order, from the first one not below the offset. */
  function FirstFrom(ids: seq<int>, offset: Option<int>): (k: nat)
    ensures k <= |ids|
    ensures offset.None? ==> k == 0
    ensures offset.Some? ==> forall i :: 0 <= i < k ==> ids[i] < offset.value
    ensures offset.Some? && k < |ids| ==> ids[k] >= offset.value
  {
    if offset.None? || ids == [] || ids[0] >= offset.value then 0 else 1 + FirstFrom(ids[1..], offset)
  }

  function GetUpdates(ids: seq<int>, offset: Option<int>, count: nat): seq<int> {
    var from := ids[FirstFrom(ids, offset)..];
    if count <= |from| then from[..count] else from
  }

  /** The inner loop over the first n updates of a batch. */
  function Handle(s: State, batch: seq<int>, throwsAt: Option<nat>, n: nat): State
    requires n <= |batch|
  {
    if n == 0 then s
    else
      var before := Handle(s, batch, throwsAt, n - 1);
      if throwsAt.Some? && throwsAt.value < n - 1 then before
      else State(Some(batch[n - 1] + 1), before.handled + [batch[n - 1]])
  }

  function Next(s: State, ids: seq<int>, p: Poll): State {
    match p
    case RequestFails => s
    case Batch(count, throwsAt) =>
      var batch := GetUpdates(ids, s.offset, count);
      Handle(s, batch, throwsAt, |batch|)
  }

  function Run(ids: seq<int>, polls: seq<Poll>): State {
    if polls == [] then State(None, []) else Next(Run(ids, polls[..|polls| - 1]), ids, polls[|polls| - 1])
  }

  class Poller {
    var offset: Option<int>
    var handled: seq<int>

    constructor ()
      ensures State(offset, handled) == State(None, [])
    {
      offset, handled := None, [];
    }

    /** One round of the outer loop: the offset moves before each handler runs, so the update whose
        handler throws is not asked for again. */
    method Round(ids: seq<int>, p: Poll)
      modifies this
      ensures State(offset, handled) == Next(old(State(offset, handled)), ids, p)
    {
      match p {
        case RequestFails =>
        case Batch(count, throwsAt) =>
          ghost var start := State(offset, handled);
          var batch := GetUpdates(ids, offset, count);
          var i, threw := 0, false;
          while i < |batch| && !threw
            invariant 0 <= i <= |batch|
            invariant threw <==> throwsAt.Some? && throwsAt.value < i
            invariant State(offset, handled) == Handle(start, batch, throwsAt, i)
          {
            offset := Some(batch[i] + 1);
            handled := handled + [batch[i]];
            threw := throwsAt == Some(i);
            i := i + 1;
          }
          ThrownBatchStops(start, batch, throwsAt, i, |batch|);
      }
    }
  }

  lemma {:induction false} ThrownBatchStops(s: State, batch: seq<int>, throwsAt: Option<nat>, i: nat, n: nat)
    requires i <= n <= |batch|
    requires i == n || (throwsAt.Some? && throwsAt.value < i)
    ensures Handle(s, batch, throwsAt, n) == Handle(s, batch, throwsAt, i)
  {
    if i < n {
      ThrownBatchStops(s, batch, throwsAt, i, n - 1);
    }
  }

  /******* A prefix, in order, none twice *******/

  /** The first k updates were handed over, and the offset asks for the rest. */
  predicate At(s: State, ids: seq<int>, k: nat) {
    k <= |ids| && s.handled == ids[..k] && s.offset == if k == 0 then None else Some(ids[k - 1] + 1)
  }

  lemma OffsetPointsPast(ids: seq<int>, s: State, k: nat)
    requires Increasing(ids) && At(s, ids, k)
    ensures FirstFrom(ids, s.offset) == k
  {
    if k > 0 {
      FirstFromIs(ids, ids[k - 1] + 1, k);
    }
  }

  lemma {:induction false} FirstFromIs(ids: seq<int>, offset: int, k: nat)
    requires k <= |ids| && (forall i :: 0 <= i < k ==> ids[i] < offset) && (k < |ids| ==> ids[k] >= offset)
    ensures FirstFrom(ids, Some(offset)) == k
  {
    if k > 0 {
      FirstFromIs(ids[1..], offset, k - 1);
    }
  }

  lemma {:induction false} HandleAdvances(ids: seq<int>, s: State, k: nat, batch: seq<int>, throwsAt: Option<nat>,
                                          n: nat)
    returns (m: nat)
    requires At(s, ids, k) && batch <= ids[k..] && n <= |batch|
    ensures k <= m <= k + n && At(Handle(s, batch, throwsAt, n), ids, m)
    ensures throwsAt.None? || throwsAt.value >= n ==> m == k + n
  {
    if n == 0 {
      m := k;
    } else {
      m := HandleAdvances(ids, s, k, batch, throwsAt, n - 1);
      if !(throwsAt.Some? && throwsAt.value < n - 1) {
        assert batch[n - 1] == ids[k..][n - 1] == ids[m];
        assert ids[..m + 1] == ids[..m] + [ids[m]];
        m := m + 1;
      }
    }
  }

  /** For every run and every pattern of throwing handlers and failing polls, the updates handed to
      handleUpdate are a prefix of the server's: in order, none skipped, none twice. */
  lemma {:induction false} HandledIsAPrefix(ids: seq<int>, polls: seq<Poll>) returns (k: nat)
    requires Increasing(ids)
    ensures At(Run(ids, polls), ids, k)
  {
    if polls == [] {
      k := 0;
    } else {
      var front, p := polls[..|polls| - 1], polls[|polls| - 1];
      k := HandledIsAPrefix(ids, front);
      var s := Run(ids, front);
      if p.Batch? {
        OffsetPointsPast(ids, s, k);
        var batch := GetUpdates(ids, s.offset, p.count);
        k := HandleAdvances(ids, s, k, batch, p.throwsAt, |batch|);
      }
    }
  }

  function Least(m: nat, n: nat): nat {
    if m < n then m else n
  }

  /** What a round hands over: all of its batch, or its updates up to and including the one whose handler
      throws. A batch that is not empty moves on, so that no update can block the queue. */
  lemma EveryBatchMoves(ids: seq<int>, s: State, k: nat, count: nat, throwsAt: Option<nat>)
    requires Increasing(ids) && At(s, ids, k)
    ensures var size := Least(count, |ids| - k);
            var n := |Next(s, ids, Batch(count, throwsAt)).handled|;
            && n == k + (if throwsAt.Some? then Least(throwsAt.value + 1, size) else size)
            && (size > 0 ==> n > k)
  {
    OffsetPointsPast(ids, s, k);
    var batch := GetUpdates(ids, s.offset, count);
    HandedOver(s, batch, throwsAt, |batch|);
  }

  lemma {:induction false} HandedOver(s: State, batch: seq<int>, throwsAt: Option<nat>, n: nat)
    requires n <= |batch|
    ensures |Handle(s, batch, throwsAt, n).handled|
            == |s.handled| + if throwsAt.Some? then Least(throwsAt.value + 1, n) else n
  {
    if n > 0 {
      HandedOver(s, batch, throwsAt, n - 1);
    }
  }
}
