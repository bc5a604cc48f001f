/** `PricingStrategy` of `utils/pricing.py`: the model price table and the
    bidding state. Money is `real`; `round(x, 2)` is passed in as a
    function, since its floating-point behaviour is not modelled. */
module Pricing {
  import opened Wrappers

  const DefaultModel := "anthropic/claude-3.5-sonnet"

  datatype ModelPricing = ModelPricing(inputPerToken: real, outputPerToken: real)

  /** The state of a `PricingStrategy`. */
  datatype Strategy = Strategy(
    prices: map<string, ModelPricing>,
    currentBid: real,
    backoffFactor: real,
    increaseFactor: real,
    minBid: real,
    maxBid: real,
    lastProfitable: bool)

  /** The state a new strategy starts in. */
  const Initial := Strategy(map[], 0.03, 0.8, 1.2, 0.03, 0.03, false)

  function Max(a: real, b: real): (m: real)
    ensures m >= a && m >= b && (m == a || m == b)
  {
    if a >= b then a else b
  }

  // ---------------------------------------------------------------------
  // calculate_next_bid and reset_strategy
  // ---------------------------------------------------------------------

  /** `calculate_next_bid(was_profitable)`: the new state and the bid
      returned. */
  function CalculateNextBid(s: Strategy, wasProfitable: Option<bool>, round2: real -> real)
    : (r: (Strategy, real))
    ensures wasProfitable.None? ==> r == (s, s.currentBid)
    ensures wasProfitable.Some? ==> r.1 == round2(s.minBid)
    ensures wasProfitable.Some? ==> r.0.lastProfitable == wasProfitable.value
    ensures wasProfitable == Some(true) ==> r.0.currentBid == s.currentBid
    ensures wasProfitable == Some(false) ==> r.0.currentBid >= s.minBid
    ensures wasProfitable == Some(false) && 0.0 <= s.backoffFactor <= 1.0 && 0.0 <= s.minBid <= s.currentBid
            ==> r.0.currentBid <= s.currentBid
    ensures r.0 == s.(currentBid := r.0.currentBid, lastProfitable := r.0.lastProfitable)
  {
    match wasProfitable
    case None => (s, s.currentBid)
    case Some(p) =>
      var bid := if p then s.currentBid else Max(s.currentBid * s.backoffFactor, s.minBid);
      assert 0.0 <= s.backoffFactor <= 1.0 && 0.0 <= s.minBid <= s.currentBid
             ==> Max(s.currentBid * s.backoffFactor, s.minBid) <= s.currentBid by {
        if 0.0 <= s.backoffFactor <= 1.0 && 0.0 <= s.minBid <= s.currentBid {
          MulShrinks(s.currentBid, s.backoffFactor, s.minBid);
        }
      }
      (s.(currentBid := bid, lastProfitable := p), round2(s.minBid))
  }

  lemma MulShrinks(x: real, f: real, lo: real)
    requires 0.0 <= f <= 1.0 && 0.0 <= lo <= x
    ensures Max(x * f, lo) <= x
  {
    assert x * f <= x * 1.0;
  }

  /** `reset_strategy`: the bid goes to 1, not back to the initial 0.03. */
  function ResetStrategy(s: Strategy): (r: Strategy)
    ensures r.currentBid == 1.0 && r.currentBid != Initial.currentBid
    ensures !r.lastProfitable
    ensures r.prices == s.prices && r.minBid == s.minBid && r.maxBid == s.maxBid
    ensures r.backoffFactor == s.backoffFactor && r.increaseFactor == s.increaseFactor
  {
    s.(currentBid := 1.0, lastProfitable := false)
  }

  /** The state after a sequence of outcomes. */
  function Run(s: Strategy, outcomes: seq<Option<bool>>, round2: real -> real): (t: Strategy)
    ensures t == s.(currentBid := t.currentBid, lastProfitable := t.lastProfitable)
    ensures (forall k :: 0 <= k < |outcomes| ==> outcomes[k].None?) ==> t == s
    ensures |outcomes| > 0 && outcomes[|outcomes| - 1].Some? ==>
              t.lastProfitable == outcomes[|outcomes| - 1].value
    decreases |outcomes|
  {
    if |outcomes| == 0 then s
    else Run(CalculateNextBid(s, outcomes[0], round2).0, outcomes[1..], round2)
  }

  lemma {:induction false} RunAppend(s: Strategy, a: seq<Option<bool>>, b: seq<Option<bool>>,
                                     round2: real -> real)
    ensures Run(s, a + b, round2) == Run(Run(s, a, round2), b, round2)
    decreases |a|
  {
    if |a| > 0 {
      assert (a + b)[1..] == a[1..] + b;
      RunAppend(CalculateNextBid(s, a[0], round2).0, a[1..], b, round2);
    } else {
      assert a + b == b;
    }
  }

  /** The state a bid is well-behaved in: a shrinking backoff and a bid not
      below the minimum. */
  predicate Sane(s: Strategy) {
    0.0 <= s.backoffFactor <= 1.0 && 0.0 <= s.minBid <= s.currentBid
  }

  /** Any sequence of outcomes keeps the bid between the minimum and where
      it started, and changes neither the factors nor the minimum. */
  lemma {:induction false} RunBounds(s: Strategy, outcomes: seq<Option<bool>>, round2: real -> real)
    requires Sane(s)
    ensures var t := Run(s, outcomes, round2);
      && Sane(t)
      && s.minBid <= t.currentBid <= s.currentBid
      && t.minBid == s.minBid && t.backoffFactor == s.backoffFactor && t.prices == s.prices
    decreases |outcomes|
  {
    if |outcomes| > 0 {
      RunBounds(CalculateNextBid(s, outcomes[0], round2).0, outcomes[1..], round2);
    }
  }

  /** Along any sequence of outcomes the bid never rises and never drops
      below the minimum. */
  lemma BidNonIncreasing(s: Strategy, outcomes: seq<Option<bool>>, round2: real -> real, i: nat, j: nat)
    requires Sane(s) && i <= j <= |outcomes|
    ensures s.minBid <= Run(s, outcomes[..j], round2).currentBid <= Run(s, outcomes[..i], round2).currentBid
  {
    assert outcomes[..j] == outcomes[..i] + outcomes[i..j];
    RunAppend(s, outcomes[..i], outcomes[i..j], round2);
    RunBounds(s, outcomes[..i], round2);
    RunBounds(Run(s, outcomes[..i], round2), outcomes[i..j], round2);
  }

  /** From the initial state the bid is already at its minimum, so every
      sequence of outcomes leaves it at 0.03. */
  lemma InitialBidFixed(outcomes: seq<Option<bool>>, round2: real -> real)
    ensures Run(Initial, outcomes, round2).currentBid == 0.03
  {
    RunBounds(Initial, outcomes, round2);
  }

  // ---------------------------------------------------------------------
  // update_model_prices and estimate_cost
  // ---------------------------------------------------------------------

  /** One model entry of the OpenRouter data: its "id" (None when the key is
      missing) and its "pricing" prompt and completion prices (None when
      missing). */
  datatype ModelEntry = ModelEntry(id: Option<string>, prompt: Option<real>, completion: Option<real>)

  function PricingOf(e: ModelEntry): ModelPricing {
    ModelPricing(e.prompt.GetOr(0.0), e.completion.GetOr(0.0))
  }

  /** Number of leading entries that carry an id. */
  function WithIds(entries: seq<ModelEntry>): (n: nat)
    ensures n <= |entries|
    ensures forall k :: 0 <= k < n ==> entries[k].id.Some?
    ensures n < |entries| ==> entries[n].id.None?
  {
    if |entries| == 0 || entries[0].id.None? then 0
    else
      var m := WithIds(entries[1..]);
      assert forall k :: 1 <= k < m + 1 ==> entries[k] == entries[1..][k - 1];
      m + 1
  }

  /** The table the loop builds from entries that all carry ids: later
      entries overwrite earlier ones. */
  function Table(entries: seq<ModelEntry>): (t: map<string, ModelPricing>)
    requires forall k :: 0 <= k < |entries| ==> entries[k].id.Some?
    decreases |entries|
  {
    if |entries| == 0 then map[]
    else
      var last := entries[|entries| - 1];
      Table(entries[..|entries| - 1])[last.id.value := PricingOf(last)]
  }

  /** A model is in the table exactly when some entry names it. */
  lemma {:induction false} TableKeys(entries: seq<ModelEntry>, id: string)
    requires forall k :: 0 <= k < |entries| ==> entries[k].id.Some?
    ensures id in Table(entries) <==> exists k :: 0 <= k < |entries| && entries[k].id == Some(id)
    decreases |entries|
  {
    if |entries| > 0 {
      var n := |entries| - 1;
      var front := entries[..n];
      TableKeys(front, id);
      if id in Table(front) {
        var k :| 0 <= k < |front| && front[k].id == Some(id);
        assert entries[k] == front[k];
      }
      if exists k :: 0 <= k < |entries| && entries[k].id == Some(id) {
        var k :| 0 <= k < |entries| && entries[k].id == Some(id);
        if k < n {
          assert front[k] == entries[k];
        }
      }
    }
  }

  /** A model named by an entry that no later entry names is priced as that
      entry says. */
  lemma {:induction false} TableLastWins(entries: seq<ModelEntry>, k: nat)
    requires forall j :: 0 <= j < |entries| ==> entries[j].id.Some?
    requires k < |entries| && forall j :: k < j < |entries| ==> entries[j].id != entries[k].id
    ensures entries[k].id.value in Table(entries)
    ensures Table(entries)[entries[k].id.value] == PricingOf(entries[k])
    decreases |entries|
  {
    var n := |entries| - 1;
    if k < n {
      var front := entries[..n];
      assert front[k] == entries[k];
      TableLastWins(front, k);
    }
  }

  /** `update_model_prices`: the table is cleared and rebuilt from the
      entries; an entry without an id raises KeyError, leaving the table
      built from the entries before it. */
  function UpdateModelPrices(s: Strategy, entries: seq<ModelEntry>): (r: (Strategy, Result<()>))
    ensures r.1.Ok? <==> forall k :: 0 <= k < |entries| ==> entries[k].id.Some?
    ensures r.1.Err? ==> r.1.error == KeyError("id")
    ensures r.0 == s.(prices := r.0.prices)
    ensures forall id :: id in r.0.prices ==>
              exists k :: 0 <= k < |entries| && entries[k].id == Some(id)
  {
    var n := WithIds(entries);
    var done := entries[..n];
    forall id | id in Table(done) ensures exists k :: 0 <= k < |entries| && entries[k].id == Some(id) {
      TableKeys(done, id);
      var k :| 0 <= k < |done| && done[k].id == Some(id);
      assert entries[k] == done[k];
    }
    (s.(prices := Table(done)), if n == |entries| then Ok(()) else Err(KeyError("id")))
  }

  /** Every entry's model ends up priced as its last entry says. */
  lemma UpdateModelPricesComplete(s: Strategy, entries: seq<ModelEntry>, k: nat)
    requires forall j :: 0 <= j < |entries| ==> entries[j].id.Some?
    requires k < |entries| && forall j :: k < j < |entries| ==> entries[j].id != entries[k].id
    ensures var p := UpdateModelPrices(s, entries).0.prices;
      entries[k].id.value in p && p[entries[k].id.value] == PricingOf(entries[k])
  {
    assert entries[..|entries|] == entries;
    TableLastWins(entries, k);
  }

  /** The price of a run at one model's per-token prices. */
  function Cost(p: ModelPricing, inputTokens: int, outputTokens: int): real {
    inputTokens as real * p.inputPerToken + outputTokens as real * p.outputPerToken
  }

  /** `estimate_cost`: the model's prices, or the default model's when the
      model is unknown; KeyError when the default is unknown too. */
  function EstimateCost(s: Strategy, model: string, inputTokens: int, outputTokens: int): (r: Result<real>)
    ensures r.Ok? <==> model in s.prices || DefaultModel in s.prices
    ensures r.Err? ==> r.error == KeyError(DefaultModel)
    ensures model in s.prices ==> r == Ok(Cost(s.prices[model], inputTokens, outputTokens))
    ensures model !in s.prices && DefaultModel in s.prices ==>
              r == Ok(Cost(s.prices[DefaultModel], inputTokens, outputTokens))
  {
    if model in s.prices then Ok(Cost(s.prices[model], inputTokens, outputTokens))
    else if DefaultModel in s.prices then Ok(Cost(s.prices[DefaultModel], inputTokens, outputTokens))
    else Err(KeyError(DefaultModel))
  }

  /** The cost is additive in the token counts: two runs cost what one run
      with their combined tokens costs. */
  lemma CostAdditive(p: ModelPricing, i1: int, o1: int, i2: int, o2: int)
    ensures Cost(p, i1 + i2, o1 + o2) == Cost(p, i1, o1) + Cost(p, i2, o2)
  {
    Distributes(i1 as real, i2 as real, p.inputPerToken);
    Distributes(o1 as real, o2 as real, p.outputPerToken);
  }

  lemma Distributes(a: real, b: real, c: real)
    ensures (a + b) * c == a * c + b * c
  {
  }

  /** Estimates add up over runs of the same model. */
  lemma EstimateCostAdditive(s: Strategy, model: string, i1: int, o1: int, i2: int, o2: int)
    requires model in s.prices || DefaultModel in s.prices
    ensures EstimateCost(s, model, i1 + i2, o1 + o2).value
            == EstimateCost(s, model, i1, o1).value + EstimateCost(s, model, i2, o2).value
  {
    CostAdditive(s.prices[if model in s.prices then model else DefaultModel], i1, o1, i2, o2);
  }

  /** An unknown model is priced as the default model. */
  lemma EstimateCostFallback(s: Strategy, model: string, i: int, o: int)
    requires model !in s.prices
    ensures EstimateCost(s, model, i, o) == EstimateCost(s, DefaultModel, i, o)
  {
  }
}
