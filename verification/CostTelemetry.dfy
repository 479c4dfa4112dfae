/** apps/worker/src/cost-telemetry.ts: what a job cost. Amounts are exact rationals. */
module CostTelemetry {
  import opened Wrappers

  /** USD per million tokens. The price table's reader admits no negative price. */
  datatype TokenPrice = TokenPrice(input: real, output: real)

  type Prices = map<string, TokenPrice>

  /** One entry of analysisUsageByModel; a missing count is None. */
  datatype Spent = Spent(model: string, inputTokens: Option<int>, outputTokens: Option<int>)

  function Clamp(n: Option<int>): nat {
    if n.Some? && n.value > 0 then n.value else 0
  }

  /** Math.round: halves go up. */
  function JsRound(x: real): int {
    (x + 0.5).Floor
  }

  function RoundUsd(v: real): real {
    JsRound(v * 1000.0) as real / 1000.0
  }

  function Amount(input: int, output: int, price: TokenPrice): real {
    input as real / 1000000.0 * price.input + output as real / 1000000.0 * price.output
  }

  /** What one model's tokens cost; an unpriced model is of no concern here. */
  function EntryUsd(prices: Prices, e: Spent): real {
    if e.model in prices then Amount(Clamp(e.inputTokens), Clamp(e.outputTokens), prices[e.model]) else 0.0
  }

  function EntryTokens(e: Spent): nat {
    Clamp(e.inputTokens) + Clamp(e.outputTokens)
  }

  function Usd(prices: Prices, es: seq<Spent>): real {
    if es == [] then 0.0 else Usd(prices, es[..|es| - 1]) + EntryUsd(prices, es[|es| - 1])
  }

  function Tokens(es: seq<Spent>): nat {
    if es == [] then 0 else Tokens(es[..|es| - 1]) + EntryTokens(es[|es| - 1])
  }

  predicate AllPriced(prices: Prices, es: seq<Spent>) {
    forall i :: 0 <= i < |es| ==> es[i].model in prices
  }

  function PriceByModel(prices: Prices, es: seq<Spent>): Option<real> {
    if AllPriced(prices, es) && Tokens(es) > 0 then Some(RoundUsd(Usd(prices, es))) else None
  }

  /** The aggregate columns at the configured critic's rate. */
  function PriceAggregate(prices: Prices, critic: string, input: Option<int>, output: Option<int>): Option<real> {
    var i, o := if input.Some? then input.value else 0, if output.Some? then output.value else 0;
    if (i > 0 || o > 0) && critic in prices then Some(RoundUsd(Amount(i, o, prices[critic]))) else None
  }

  /** priceAnalysis: the breakdown in the order the object lists it, if there is one. */
  method PriceAnalysis(prices: Prices, critic: string, byModel: seq<Spent>, input: Option<int>, output: Option<int>)
    returns (r: Option<real>)
    ensures r == if byModel != [] then PriceByModel(prices, byModel) else PriceAggregate(prices, critic, input, output)
  {
    if |byModel| > 0 {
      var usd, tokens := 0.0, 0;
      var k := 0;
      while k < |byModel|
        invariant 0 <= k <= |byModel|
        invariant usd == Usd(prices, byModel[..k]) && tokens == Tokens(byModel[..k])
        invariant AllPriced(prices, byModel[..k])
      {
        var spent := byModel[k];
        if spent.model !in prices {
          return None;
        }
        assert byModel[..k + 1][..k] == byModel[..k];
        var i, o := Clamp(spent.inputTokens), Clamp(spent.outputTokens);
        tokens := tokens + i + o;
        usd := usd + Amount(i, o, prices[spent.model]);
        k := k + 1;
      }
      assert byModel[..k] == byModel;
      return if tokens > 0 then Some(RoundUsd(usd)) else None;
    }
    r := PriceAggregate(prices, critic, input, output);
  }

  /******* Null, and order *******/

  lemma {:induction false} NoTokensMeansAllZero(es: seq<Spent>)
    ensures Tokens(es) == 0 <==> forall i :: 0 <= i < |es| ==> EntryTokens(es[i]) == 0
  {
    if es != [] {
      var front := es[..|es| - 1];
      NoTokensMeansAllZero(front);
      assert forall i :: 0 <= i < |front| ==> front[i] == es[i];
    }
  }

  /** One unpriced model, or nothing spent at all, makes the whole price null; nothing else does. */
  lemma NullExactlyWhen(prices: Prices, es: seq<Spent>)
    ensures PriceByModel(prices, es).None? <==>
            (exists e :: e in es && e.model !in prices) || (forall e :: e in es ==> EntryTokens(e) == 0)
  {
    NoTokensMeansAllZero(es);
    if PriceByModel(prices, es).None? {
      if !AllPriced(prices, es) {
        var i :| 0 <= i < |es| && es[i].model !in prices;
        assert es[i] in es;
      }
    } else {
      var i :| 0 <= i < |es| && EntryTokens(es[i]) != 0;
      assert es[i] in es;
    }
  }

  function Without(es: seq<Spent>, i: nat): seq<Spent>
    requires i < |es|
  {
    es[..i] + es[i + 1..]
  }

  lemma WithoutFront(es: seq<Spent>, i: nat)
    requires i + 1 < |es|
    ensures var n, rest := |es| - 1, Without(es, i);
            && |rest| == n && rest[n - 1] == es[n] && rest[..n - 1] == Without(es[..n], i) && es[..n][i] == es[i]
  {
  }

  lemma {:induction false} UsdWithout(prices: Prices, es: seq<Spent>, i: nat)
    requires i < |es|
    ensures Usd(prices, es) == EntryUsd(prices, es[i]) + Usd(prices, Without(es, i))
  {
    hide EntryUsd;
    var n := |es| - 1;
    if i < n {
      UsdWithout(prices, es[..n], i);
      WithoutFront(es, i);
      hide Without;
    } else {
      assert Without(es, i) == es[..n];
    }
  }

  lemma MultisetWithout(b: seq<Spent>, i: nat)
    requires i < |b|
    ensures multiset(b) == multiset(Without(b, i)) + multiset{b[i]}
  {
    assert b == b[..i] + [b[i]] + b[i + 1..];
  }

  lemma CancelOne(a: multiset<Spent>, b: multiset<Spent>, e: Spent)
    requires a + multiset{e} == b + multiset{e}
    ensures a == b
  {
    assert a == a + multiset{e} - multiset{e};
    assert b == b + multiset{e} - multiset{e};
  }

  /** A permutation of front + [last] holds last somewhere, and the rest permutes front. */
  lemma RemoveFromPermutation(front: seq<Spent>, last: Spent, b: seq<Spent>) returns (i: nat)
    requires multiset(front + [last]) == multiset(b)
    ensures i < |b| && b[i] == last && multiset(front) == multiset(Without(b, i))
  {
    assert last in multiset(b);
    i :| 0 <= i < |b| && b[i] == last;
    MultisetWithout(b, i);
    hide Without;
    assert multiset(front + [last]) == multiset(front) + multiset{last};
    CancelOne(multiset(front), multiset(Without(b, i)), last);
  }

  lemma {:induction false} UsdOfPermutation(prices: Prices, a: seq<Spent>, b: seq<Spent>)
    requires multiset(a) == multiset(b)
    ensures Usd(prices, a) == Usd(prices, b)
  {
    if a == [] {
      assert |multiset(b)| == 0;
    } else {
      var n := |a| - 1;
      assert a == a[..n] + [a[n]];
      var i := RemoveFromPermutation(a[..n], a[n], b);
      UsdWithout(prices, b, i);
      UsdOfPermutation(prices, a[..n], Without(b, i));
    }
  }

  /** The order in which the models are listed does not matter, even though the loop stops at the
      first unpriced one. */
  lemma OrderDoesNotMatter(prices: Prices, a: seq<Spent>, b: seq<Spent>)
    requires multiset(a) == multiset(b)
    ensures PriceByModel(prices, a) == PriceByModel(prices, b)
  {
    UsdOfPermutation(prices, a, b);
    NullExactlyWhen(prices, a);
    NullExactlyWhen(prices, b);
    assert forall e :: e in a <==> e in multiset(a);
    assert forall e :: e in b <==> e in multiset(b);
  }

  /******* The rates *******/

  /** A million input tokens cost the model's input rate, a million output tokens its output rate, on
      either path. */
  lemma MillionTokensCostTheRate(prices: Prices, model: string)
    requires model in prices
    ensures PriceByModel(prices, [Spent(model, Some(1000000), None)]) == Some(RoundUsd(prices[model].input))
    ensures PriceByModel(prices, [Spent(model, None, Some(1000000))]) == Some(RoundUsd(prices[model].output))
    ensures PriceAggregate(prices, model, Some(1000000), None) == Some(RoundUsd(prices[model].input))
    ensures PriceAggregate(prices, model, None, Some(1000000)) == Some(RoundUsd(prices[model].output))
  {
    hide RoundUsd;
    SingleEntry(prices, Spent(model, Some(1000000), None));
    SingleEntry(prices, Spent(model, None, Some(1000000)));
  }

  /** What is rounded is additive in each count ... */
  lemma AmountAddsUp(i1: int, o1: int, i2: int, o2: int, price: TokenPrice)
    ensures Amount(i1 + i2, o1 + o2, price) == Amount(i1, o1, price) + Amount(i2, o2, price)
  {
    Distribute(i1 as real / 1000000.0, i2 as real / 1000000.0, price.input);
    Distribute(o1 as real / 1000000.0, o2 as real / 1000000.0, price.output);
  }

  lemma Distribute(x: real, y: real, rate: real)
    ensures (x + y) * rate == x * rate + y * rate
  {
  }

  /** ... so that splitting a model's tokens over two entries does not matter ... */
  lemma EntriesAddUp(prices: Prices, model: string, i1: nat, o1: nat, i2: nat, o2: nat)
    ensures EntryUsd(prices, Spent(model, Some(i1 + i2), Some(o1 + o2)))
            == EntryUsd(prices, Spent(model, Some(i1), Some(o1))) + EntryUsd(prices, Spent(model, Some(i2), Some(o2)))
  {
    hide Amount;
    if model in prices {
      AmountAddsUp(i1, o1, i2, o2, prices[model]);
    }
  }

  /** ... and across the models of a breakdown. */
  lemma {:induction false} ModelsAddUp(prices: Prices, a: seq<Spent>, b: seq<Spent>)
    ensures Usd(prices, a + b) == Usd(prices, a) + Usd(prices, b)
  {
    hide EntryUsd;
    if b == [] {
      assert a + b == a;
    } else {
      ModelsAddUp(prices, a, b[..|b| - 1]);
      assert (a + b)[..|a + b| - 1] == a + b[..|b| - 1];
    }
  }

  /** Missing and negative counts of a breakdown are nothing. */
  lemma NothingCostsNothing(prices: Prices, model: string, n: Option<int>, m: Option<int>)
    requires (n.Some? ==> n.value <= 0) && (m.Some? ==> m.value <= 0)
    ensures PriceByModel(prices, [Spent(model, n, m)]).None? && EntryUsd(prices, Spent(model, n, m)) == 0.0
  {
    SingleEntry(prices, Spent(model, n, m));
  }

  /******* The two paths *******/

  lemma SingleEntry(prices: Prices, e: Spent)
    ensures Usd(prices, [e]) == EntryUsd(prices, e) && Tokens([e]) == EntryTokens(e)
  {
  }

  /** When only the configured critic ran, the breakdown prices the job as the aggregate columns do. The
      readers of finalize.ts hand over no breakdown with a negative count. */
  lemma SingleCriticAgrees(prices: Prices, critic: string, input: Option<int>, output: Option<int>)
    requires (input.Some? ==> input.value >= 0) && (output.Some? ==> output.value >= 0)
    ensures PriceByModel(prices, [Spent(critic, input, output)]) == PriceAggregate(prices, critic, input, output)
  {
    SingleEntry(prices, Spent(critic, input, output));
  }

  /******* The total *******/

  function Abs(x: real): real {
    if x < 0.0 then -x else x
  }

  /** Rounding takes an amount to the nearest tenth of a cent, upwards from half way ... */
  lemma RoundUsdIsClose(v: real)
    ensures -0.0005 < RoundUsd(v) - v <= 0.0005 && (RoundUsd(v) * 1000.0).Floor as real == RoundUsd(v) * 1000.0
  {
    assert RoundUsd(v) * 1000.0 == JsRound(v * 1000.0) as real;
  }

  /** ... and leaves an amount that is already a whole number of tenths of cents alone. */
  lemma RoundUsdKeepsMills(n: int)
    ensures RoundUsd(n as real / 1000.0) == n as real / 1000.0
  {
    assert JsRound(n as real) == n;
  }

  function Total(transcription: Option<real>, analysis: Option<real>): Option<real> {
    if transcription.None? || analysis.None? then None else Some(RoundUsd(transcription.value + analysis.value))
  }

  /** The total is the sum of the two lines the report shows, to the digit, and within a tenth of a
      cent of what the job cost before any rounding. */
  lemma TotalIsTheSumOfItsLines(transcription: real, analysis: real)
    ensures Total(None, Some(analysis)) == Total(Some(transcription), None) == Total(None, None) == None
    ensures var t, a := RoundUsd(transcription), RoundUsd(analysis);
            Total(Some(t), Some(a)) == Some(t + a) && Abs(t + a - (transcription + analysis)) <= 0.001
  {
    RoundUsdIsClose(transcription);
    RoundUsdIsClose(analysis);
    var m, n := JsRound(transcription * 1000.0), JsRound(analysis * 1000.0);
    RoundUsdKeepsMills(m + n);
    assert (m + n) as real / 1000.0 == RoundUsd(transcription) + RoundUsd(analysis);
  }
}
