/** apps/bot/src/handlers.ts, claimMediaGroup: only the first message of an album is answered. */
module MediaGroups {
  import Decimal

  /** Milliseconds: 5 * 60 * 1000. */
  const MEDIA_GROUP_TTL := 300000

  function Key(chatId: int, mediaGroupId: string): string {
    Decimal.OfInt(chatId) + ":" + mediaGroupId
  }

  /** The key tells every pair apart, whatever the group id contains, because no colon can occur in
      the chat id. */
  lemma KeyIsInjective(chat1: int, group1: string, chat2: int, group2: string)
    requires Key(chat1, group1) == Key(chat2, group2)
    ensures chat1 == chat2 && group1 == group2
  {
    var a, b, k := Decimal.OfInt(chat1), Decimal.OfInt(chat2), Key(chat1, group1);
    Decimal.OfIntHasNoColon(chat1);
    Decimal.OfIntHasNoColon(chat2);
    FirstColon(a, group1);
    FirstColon(b, group2);
    assert |a| == |b|;
    assert a == k[..|a|] && b == k[..|a|];
    Decimal.OfIntIsInjective(chat1, chat2);
    assert group1 == k[|a| + 1..] && group2 == k[|a| + 1..];
  }

  lemma FirstColon(a: string, rest: string)
    requires forall i :: 0 <= i < |a| ==> a[i] != ':'
    ensures var k := a + ":" + rest;
            k[|a|] == ':' && forall i :: 0 <= i < |a| ==> k[i] != ':'
  {
  }

  datatype Claim = Claim(chatId: int, mediaGroupId: string, at: int)

  function KeyOf(c: Claim): string {
    Key(c.chatId, c.mediaGroupId)
  }

  function Unexpired(m: map<string, int>, now: int): map<string, int> {
    map k | k in m && m[k] > now :: m[k]
  }

  function Claimed(m: map<string, int>, c: Claim): map<string, int> {
    var live := Unexpired(m, c.at);
    if KeyOf(c) in live then live else live[KeyOf(c) := c.at + MEDIA_GROUP_TTL]
  }

  /** The map after a history of claims. */
  function After(history: seq<Claim>): map<string, int> {
    if history == [] then map[] else Claimed(After(history[..|history| - 1]), history[|history| - 1])
  }

  /** Did the i-th claim of the history succeed? */
  predicate Succeeded(history: seq<Claim>, i: nat)
    requires i < |history|
  {
    KeyOf(history[i]) !in Unexpired(After(history[..i]), history[i].at)
  }

  class ClaimedGroups {
    var expiry: map<string, int>

    constructor ()
      ensures expiry == map[]
    {
      expiry := map[];
    }

    method Claim(c: Claim) returns (ok: bool)
      modifies this
      ensures expiry == Claimed(old(expiry), c)
      ensures ok <==> KeyOf(c) !in Unexpired(old(expiry), c.at)
    {
      var unseen := expiry.Keys;
      while unseen != {}
        invariant unseen <= expiry.Keys
        invariant forall k :: k in expiry ==> k in old(expiry) && expiry[k] == old(expiry)[k]
        invariant forall k :: k in old(expiry) && k !in unseen ==> (k in expiry <==> old(expiry)[k] > c.at)
        invariant forall k :: k in old(expiry) && k in unseen ==> k in expiry
        decreases unseen
      {
        var key :| key in unseen;
        unseen := unseen - {key};
        if expiry[key] <= c.at {
          expiry := expiry - {key};
        }
      }
      assert expiry == Unexpired(old(expiry), c.at);
      var key := Key(c.chatId, c.mediaGroupId);
      if key in expiry {
        return false;
      }
      expiry := expiry[key := c.at + MEDIA_GROUP_TTL];
      ok := true;
    }
  }

  /******* The map against the plain history *******/

  predicate SamePair(a: Claim, b: Claim) {
    a.chatId == b.chatId && a.mediaGroupId == b.mediaGroupId
  }

  /** Every claim from j up to but not including n saw a clock before the expiry of the j-th. */
  predicate AllBefore(history: seq<Claim>, j: nat, n: nat) {
    forall m :: j < m < n && m < |history| ==> history[m].at < history[j].at + 5 * 60 * 1000
  }

  /** The j-th claim succeeded, and no later one has purged its entry. */
  predicate Survives(history: seq<Claim>, j: nat) {
    j < |history| && Succeeded(history, j) && AllBefore(history, j, |history|)
  }

  predicate Wrote(history: seq<Claim>, j: nat, k: string, expiry: int) {
    j < |history| && Survives(history, j) && KeyOf(history[j]) == k && expiry == history[j].at + MEDIA_GROUP_TTL
  }

  /** The map holds what the surviving claims wrote, and nothing else. */
  predicate Matches(history: seq<Claim>) {
    var m := After(history);
    && (forall k :: k in m ==> exists j :: 0 <= j < |history| && Wrote(history, j, k, m[k]))
    && (forall j :: 0 <= j < |history| && Survives(history, j) ==>
          KeyOf(history[j]) in m && m[KeyOf(history[j])] == history[j].at + MEDIA_GROUP_TTL)
  }

  lemma SucceededEarlier(history: seq<Claim>, n: nat, i: nat)
    requires i < n <= |history|
    ensures Succeeded(history[..n], i) <==> Succeeded(history, i)
  {
    assert history[..n][..i] == history[..i];
  }

  /** Surviving one more claim. */
  lemma SurvivesStep(history: seq<Claim>, j: nat)
    requires history != [] && j < |history| - 1
    ensures Survives(history, j) <==>
            Survives(history[..|history| - 1], j) && history[|history| - 1].at < history[j].at + MEDIA_GROUP_TTL
  {
    hide Succeeded, After;
    var n := |history| - 1;
    SucceededEarlier(history, n, j);
    assert forall m :: 0 <= m < n ==> history[..n][m] == history[m];
  }

  lemma AfterStep(history: seq<Claim>)
    requires history != []
    ensures After(history) == Claimed(After(history[..|history| - 1]), history[|history| - 1])
    ensures Succeeded(history, |history| - 1) <==>
            KeyOf(history[|history| - 1]) !in Unexpired(After(history[..|history| - 1]), history[|history| - 1].at)
  {
  }

  lemma KnownEntry(history: seq<Claim>, k: string) returns (j: nat)
    requires Matches(history) && k in After(history)
    ensures Wrote(history, j, k, After(history)[k])
  {
    j :| 0 <= j < |history| && Wrote(history, j, k, After(history)[k]);
  }

  lemma ClaimedEntry(m: map<string, int>, c: Claim, k: string)
    requires k in Claimed(m, c)
    ensures if k in m && m[k] > c.at then Claimed(m, c)[k] == m[k]
            else k == KeyOf(c) && k !in Unexpired(m, c.at) && Claimed(m, c)[k] == c.at + MEDIA_GROUP_TTL
  {
  }

  lemma LastSurvives(history: seq<Claim>)
    requires history != [] && Succeeded(history, |history| - 1)
    ensures Survives(history, |history| - 1)
  {
  }

  lemma EntryStep(history: seq<Claim>, k: string)
    requires history != [] && Matches(history[..|history| - 1]) && k in After(history)
    ensures exists j :: 0 <= j < |history| && Wrote(history, j, k, After(history)[k])
  {
    hide After, Matches, Succeeded, Claimed, Unexpired, Survives, AllBefore;
    var n := |history| - 1;
    var before, c := history[..n], history[n];
    AfterStep(history);
    ClaimedEntry(After(before), c, k);
    if k in After(before) && After(before)[k] > c.at {
      var j := KnownEntry(before, k);
      SurvivesStep(history, j);
      assert Wrote(history, j, k, After(history)[k]);
    } else {
      LastSurvives(history);
      assert Wrote(history, n, k, After(history)[k]);
    }
  }

  lemma SurvivorStep(history: seq<Claim>, j: nat)
    requires history != [] && Matches(history[..|history| - 1]) && j < |history| && Survives(history, j)
    ensures KeyOf(history[j]) in After(history)
    ensures After(history)[KeyOf(history[j])] == history[j].at + MEDIA_GROUP_TTL
  {
    hide After, Matches, Succeeded, Claimed;
    var n := |history| - 1;
    var before, c := history[..n], history[n];
    AfterStep(history);
    if j < n {
      SurvivesStep(history, j);
      KnownSurvivor(before, j);
      ClaimKeepsUnexpired(After(before), c, KeyOf(history[j]));
    } else {
      ClaimEnters(After(before), c);
    }
  }

  lemma KnownSurvivor(history: seq<Claim>, j: nat)
    requires Matches(history) && j < |history| && Survives(history, j)
    ensures KeyOf(history[j]) in After(history)
    ensures After(history)[KeyOf(history[j])] == history[j].at + MEDIA_GROUP_TTL
  {
  }

  lemma ClaimKeepsUnexpired(m: map<string, int>, c: Claim, k: string)
    requires k in m && m[k] > c.at
    ensures k in Claimed(m, c) && Claimed(m, c)[k] == m[k]
  {
  }

  lemma ClaimEnters(m: map<string, int>, c: Claim)
    requires KeyOf(c) !in Unexpired(m, c.at)
    ensures KeyOf(c) in Claimed(m, c) && Claimed(m, c)[KeyOf(c)] == c.at + MEDIA_GROUP_TTL
  {
  }

  /** For every clock, one that steps back included. */
  lemma {:induction false} MapMatchesHistory(history: seq<Claim>)
    ensures Matches(history)
  {
    if history != [] {
      MapMatchesHistory(history[..|history| - 1]);
      forall k | k in After(history)
        ensures exists j :: 0 <= j < |history| && Wrote(history, j, k, After(history)[k])
      {
        EntryStep(history, k);
      }
      forall j | 0 <= j < |history| && Survives(history, j)
        ensures KeyOf(history[j]) in After(history)
        ensures After(history)[KeyOf(history[j])] == history[j].at + MEDIA_GROUP_TTL
      {
        SurvivorStep(history, j);
      }
    }
  }

  /** The j-th claim was for the same pair and succeeded, and every claim since then, the i-th
      included, came before its expiry. */
  predicate Blocks(history: seq<Claim>, j: nat, i: nat) {
    && j < i < |history| && Succeeded(history, j) && SamePair(history[j], history[i])
    && AllBefore(history, j, i + 1)
  }

  /** When a claim succeeds, whatever the clock does: unless an earlier one for its pair succeeded and
      no claim in between, for any pair, saw a clock past its expiry. */
  lemma ClaimSucceedsIffUnblocked(history: seq<Claim>, i: nat)
    requires i < |history|
    ensures Succeeded(history, i) <==> !exists j :: 0 <= j < i && Blocks(history, j, i)
  {
    var before, c := history[..i], history[i];
    MapMatchesHistory(before);
    var m, k := After(before), KeyOf(c);
    if !Succeeded(history, i) {
      var j :| 0 <= j < i && Wrote(before, j, k, m[k]);
      BlocksIff(history, j, i);
      KeyIsInjective(history[j].chatId, history[j].mediaGroupId, c.chatId, c.mediaGroupId);
      assert Blocks(history, j, i);
    } else if j :| 0 <= j < i && Blocks(history, j, i) {
      BlocksIff(history, j, i);
      KnownSurvivor(before, j);
    }
  }

  lemma BlocksIff(history: seq<Claim>, j: nat, i: nat)
    requires j < i < |history|
    ensures Blocks(history, j, i) <==> Survives(history[..i], j) && SamePair(history[j], history[i])
                                       && history[i].at < history[j].at + MEDIA_GROUP_TTL
  {
    hide Succeeded, After;
    SucceededEarlier(history, i, j);
    assert forall m :: 0 <= m < i ==> history[..i][m] == history[m];
  }

  /******* A clock that does not run backwards *******/

  predicate Monotone(history: seq<Claim>) {
    forall i, j :: 0 <= i <= j < |history| ==> history[i].at <= history[j].at
  }

  /** A successful claim for the pair of c that still counts at `now`. */
  predicate Holds(history: seq<Claim>, i: nat, c: Claim, now: int) {
    i < |history| && Succeeded(history, i) && SamePair(history[i], c) && now < history[i].at + 5 * 60 * 1000
  }

  /** Then a claim succeeds exactly when none for the same chat and group succeeded within the TTL
      before it. */
  lemma ClaimSucceedsIffNoneHolds(history: seq<Claim>, i: nat)
    requires Monotone(history) && i < |history|
    ensures Succeeded(history, i) <==> !exists j :: 0 <= j < i && Holds(history, j, history[i], history[i].at)
  {
    ClaimSucceedsIffUnblocked(history, i);
    forall j | 0 <= j < i
      ensures Blocks(history, j, i) <==> Holds(history, j, history[i], history[i].at)
    {
      assert history[i].at < history[j].at + MEDIA_GROUP_TTL ==> AllBefore(history, j, i + 1);
    }
  }

  /** And after every claim the map holds exactly the pairs whose successful claim has not expired. */
  lemma MapHoldsExactlyTheUnexpired(history: seq<Claim>, c: Claim, now: int)
    requires Monotone(history) && history != [] && now == history[|history| - 1].at
    ensures KeyOf(c) in After(history) <==> exists j :: 0 <= j < |history| && Holds(history, j, c, now)
  {
    MapMatchesHistory(history);
    var m, k := After(history), KeyOf(c);
    if k in m {
      var j :| 0 <= j < |history| && Wrote(history, j, k, m[k]);
      KeyIsInjective(history[j].chatId, history[j].mediaGroupId, c.chatId, c.mediaGroupId);
      EntriesAreUnexpired(history, k);
      assert Holds(history, j, c, now);
    } else if j :| 0 <= j < |history| && Holds(history, j, c, now) {
      assert AllBefore(history, j, |history|);
      KnownSurvivor(history, j);
    }
  }

  lemma EntriesAreUnexpired(history: seq<Claim>, k: string)
    requires history != [] && k in After(history)
    ensures After(history)[k] > history[|history| - 1].at
  {
  }

  /** A clock that steps back can break it: the album is answered twice within the TTL, because an
      unrelated claim made while the clock was ahead purged it. */
  lemma BackwardClockAnswersTwice()
    ensures var history := [Claim(1, "a", 0), Claim(2, "b", MEDIA_GROUP_TTL), Claim(1, "a", 1)];
            Succeeded(history, 0) && Succeeded(history, 2)
  {
    var history := [Claim(1, "a", 0), Claim(2, "b", MEDIA_GROUP_TTL), Claim(1, "a", 1)];
    if Key(2, "b") == Key(1, "a") {
      KeyIsInjective(2, "b", 1, "a");
    }
    assert history[..1][..0] == [] && history[..2][..1] == history[..1];
    assert After(history[..1]) == Claimed(map[], history[0]);
    assert After(history[..2]) == Claimed(Claimed(map[], history[0]), history[1]);
  }
}
