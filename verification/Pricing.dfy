/**
 * Price resolution in three layers and the cost arithmetic on top of it, over exact numbers.
 */
module Pricing {
  import opened Basics

  datatype Source = KeyConfig | Contract | Standard

  /** The five billed dimensions, and any other price type a row may name. */
  datatype PriceType = Input | Output | CacheCreation | CacheRead | Reasoning | Other(name: string)

  /** A price row of any layer. Key-config rows have no validity interval. */
  datatype Row = Row(id: nat, priceType: PriceType, price: real, unitSize: int, from: int, to: Option<int>)

  datatype Price = Price(price: real, unitSize: int, id: nat, source: Source)

  type Prices = map<PriceType, Price>

  const DEFAULT_UNIT := 1_000_000

  function UnitOf(size: int): (u: int)
    ensures u != 0
  {
    if size == 0 then DEFAULT_UNIT else size
  }

  function PriceOf(r: Row, source: Source): Price {
    Price(r.price, UnitOf(r.unitSize), r.id, source)
  }

  /** effective_from <= ts AND (effective_to IS NULL OR effective_to > ts) */
  predicate Effective(r: Row, ts: int) {
    r.from <= ts && (r.to.None? || r.to.value > ts)
  }

  // ---------------------------------------------------------------- precedence

  /** Key-config rows overwrite each other: the last row of a price type counts. */
  function LastOf(rows: seq<Row>, d: PriceType): Option<Row> {
    if rows == [] then None
    else if rows[|rows| - 1].priceType == d then Some(rows[|rows| - 1])
    else LastOf(rows[..|rows| - 1], d)
  }

  /** Contract and standard rows do not: the first effective row of a price type counts. */
  function FirstOf(rows: seq<Row>, ts: int, d: PriceType): Option<Row> {
    if rows == [] then None
    else if rows[0].priceType == d && Effective(rows[0], ts) then Some(rows[0])
    else FirstOf(rows[1..], ts, d)
  }

  /** Key config, else contract, else standard. */
  function Resolved(keyRows: seq<Row>, contracts: seq<Row>, standards: seq<Row>, ts: int, d: PriceType): Option<Price> {
    if LastOf(keyRows, d).Some? then Some(PriceOf(LastOf(keyRows, d).value, KeyConfig))
    else if FirstOf(contracts, ts, d).Some? then Some(PriceOf(FirstOf(contracts, ts, d).value, Contract))
    else if FirstOf(standards, ts, d).Some? then Some(PriceOf(FirstOf(standards, ts, d).value, Standard))
    else None
  }

  function Lookup(prices: Prices, d: PriceType): Option<Price> {
    if d in prices then Some(prices[d]) else None
  }

  lemma LastOfNext(rows: seq<Row>, i: nat, d: PriceType)
    requires i < |rows|
    ensures LastOf(rows[..i + 1], d) == if rows[i].priceType == d then Some(rows[i]) else LastOf(rows[..i], d)
  {
    assert rows[..i + 1][..i] == rows[..i];
  }

  lemma {:induction false} FirstOfNext(rows: seq<Row>, r: Row, ts: int, d: PriceType)
    ensures FirstOf(rows + [r], ts, d) ==
            if FirstOf(rows, ts, d).Some? then FirstOf(rows, ts, d)
            else if r.priceType == d && Effective(r, ts) then Some(r) else None
  {
    if rows == [] {
      assert rows + [r] == [r];
      assert FirstOf([r][1..], ts, d) == None;
    } else {
      assert (rows + [r])[1..] == rows[1..] + [r];
      FirstOfNext(rows[1..], r, ts, d);
    }
  }

  /** The price of a dimension comes from its highest layer that has one, and from nowhere else. */
  method ResolvePrices(keyRows: seq<Row>, contracts: seq<Row>, standards: seq<Row>, ts: int) returns (prices: Prices)
    ensures forall d :: Lookup(prices, d) == Resolved(keyRows, contracts, standards, ts, d)
  {
    hide FirstOf, LastOf, Effective;
    prices := map[];
    forall d ensures LastOf([], d) == None && FirstOf([], ts, d) == None { NoRows(ts, d); }
    for i := 0 to |keyRows|
      invariant forall d :: Lookup(prices, d) == Resolved(keyRows[..i], [], [], ts, d)
    {
      ghost var before := prices;
      prices := prices[keyRows[i].priceType := PriceOf(keyRows[i], KeyConfig)];
      forall d ensures Lookup(prices, d) == Resolved(keyRows[..i + 1], [], [], ts, d) {
        assert Lookup(before, d) == Resolved(keyRows[..i], [], [], ts, d);
        LastOfNext(keyRows, i, d);
      }
    }
    assert keyRows[..|keyRows|] == keyRows;
    for i := 0 to |contracts|
      invariant forall d :: Lookup(prices, d) == Resolved(keyRows, contracts[..i], [], ts, d)
    {
      var r := contracts[i];
      assert contracts[..i + 1] == contracts[..i] + [r];
      ghost var before := prices;
      if Effective(r, ts) && r.priceType !in prices {
        prices := prices[r.priceType := PriceOf(r, Contract)];
      }
      forall d ensures Lookup(prices, d) == Resolved(keyRows, contracts[..i + 1], [], ts, d) {
        assert Lookup(before, d) == Resolved(keyRows, contracts[..i], [], ts, d);
        FirstOfNext(contracts[..i], r, ts, d);
      }
    }
    assert contracts[..|contracts|] == contracts;
    for i := 0 to |standards|
      invariant forall d :: Lookup(prices, d) == Resolved(keyRows, contracts, standards[..i], ts, d)
    {
      var r := standards[i];
      assert standards[..i + 1] == standards[..i] + [r];
      ghost var before := prices;
      if Effective(r, ts) && r.priceType !in prices {
        prices := prices[r.priceType := PriceOf(r, Standard)];
      }
      forall d ensures Lookup(prices, d) == Resolved(keyRows, contracts, standards[..i + 1], ts, d) {
        assert Lookup(before, d) == Resolved(keyRows, contracts, standards[..i], ts, d);
        FirstOfNext(standards[..i], r, ts, d);
      }
    }
    assert standards[..|standards|] == standards;
  }

  lemma NoRows(ts: int, d: PriceType)
    ensures LastOf([], d) == None && FirstOf([], ts, d) == None
  {}

  // ---------------------------------------------------------------- what a price is, row by row

  /** The row is for this dimension and in force at the time. */
  predicate Offers(r: Row, ts: int, d: PriceType) {
    r.priceType == d && r.from <= ts && !(r.to.Some? && r.to.value <= ts)
  }

  /** Row i is the last one for the dimension. */
  ghost predicate IsLast(rows: seq<Row>, d: PriceType, i: int) {
    0 <= i < |rows| && rows[i].priceType == d && forall j :: i < j < |rows| ==> rows[j].priceType != d
  }

  /** Row i is the first one in force for the dimension. */
  ghost predicate IsFirst(rows: seq<Row>, ts: int, d: PriceType, i: int) {
    0 <= i < |rows| && Offers(rows[i], ts, d) && forall j :: 0 <= j < i ==> !Offers(rows[j], ts, d)
  }

  /** The price is that of the row, for a million units if the row has no unit size. */
  predicate Quotes(p: Price, r: Row, source: Source) {
    p.price == r.price && p.id == r.id && p.source == source && p.unitSize == if r.unitSize == 0 then 1_000_000 else r.unitSize
  }

  lemma {:induction false} LastOfIs(rows: seq<Row>, d: PriceType)
    ensures LastOf(rows, d).None? <==> forall i :: 0 <= i < |rows| ==> rows[i].priceType != d
    ensures LastOf(rows, d).Some? ==> exists i :: IsLast(rows, d, i) && LastOf(rows, d).value == rows[i]
  {
    if rows != [] {
      var n := |rows| - 1;
      LastOfIs(rows[..n], d);
      if rows[n].priceType == d {
        assert IsLast(rows, d, n);
      } else if LastOf(rows[..n], d).Some? {
        var i :| IsLast(rows[..n], d, i) && LastOf(rows[..n], d).value == rows[..n][i];
        assert forall j :: i < j < n ==> rows[..n][j] == rows[j];
        assert IsLast(rows, d, i);
      } else {
        assert forall i :: 0 <= i < n ==> rows[i] == rows[..n][i];
      }
    }
  }

  lemma {:induction false} FirstOfIs(rows: seq<Row>, ts: int, d: PriceType)
    ensures FirstOf(rows, ts, d).None? <==> forall i :: 0 <= i < |rows| ==> !Offers(rows[i], ts, d)
    ensures FirstOf(rows, ts, d).Some? ==> exists i :: IsFirst(rows, ts, d, i) && FirstOf(rows, ts, d).value == rows[i]
  {
    if rows != [] {
      FirstOfIs(rows[1..], ts, d);
      assert forall i :: 1 <= i < |rows| ==> rows[i] == rows[1..][i - 1];
      if Offers(rows[0], ts, d) {
        assert IsFirst(rows, ts, d, 0);
      } else if FirstOf(rows[1..], ts, d).Some? {
        var i :| IsFirst(rows[1..], ts, d, i) && FirstOf(rows[1..], ts, d).value == rows[1..][i];
        assert IsFirst(rows, ts, d, i + 1);
      }
    }
  }

  /**
   * A dimension that the key's configuration prices has the price of its last row there, whatever the
   * contract and the standard say; else that of the first contract row in force; else that of the
   * first standard row in force; else none.
   */
  lemma PriceComesFrom(keyRows: seq<Row>, contracts: seq<Row>, standards: seq<Row>, ts: int, d: PriceType)
    ensures var p := Resolved(keyRows, contracts, standards, ts, d);
            if exists i :: 0 <= i < |keyRows| && keyRows[i].priceType == d then
              p.Some? && exists i :: IsLast(keyRows, d, i) && Quotes(p.value, keyRows[i], KeyConfig)
            else if exists i :: 0 <= i < |contracts| && Offers(contracts[i], ts, d) then
              p.Some? && exists i :: IsFirst(contracts, ts, d, i) && Quotes(p.value, contracts[i], Contract)
            else if exists i :: 0 <= i < |standards| && Offers(standards[i], ts, d) then
              p.Some? && exists i :: IsFirst(standards, ts, d, i) && Quotes(p.value, standards[i], Standard)
            else p.None?
  {
    hide LastOf, FirstOf, Offers, IsLast, IsFirst;
    LastOfIs(keyRows, d);
    FirstOfIs(contracts, ts, d);
    FirstOfIs(standards, ts, d);
  }

  // ---------------------------------------------------------------- cost

  /** Token counts per dimension. */
  datatype Usage = Usage(input: int, output: int, cacheCreation: int, cacheRead: int, reasoning: int)

  const DIMENSIONS := [Input, Output, CacheCreation, CacheRead, Reasoning]

  function Tokens(u: Usage, d: PriceType): int {
    match d
    case Input => u.input
    case Output => u.output
    case CacheCreation => u.cacheCreation
    case CacheRead => u.cacheRead
    case Reasoning => u.reasoning
    case Other(_) => 0
  }

  /** Price of one token; zero for a dimension without a price. */
  function PerToken(prices: Prices, d: PriceType): real {
    if d in prices then prices[d].price / (UnitOf(prices[d].unitSize) as real) else 0.0
  }

  function Term(u: Usage, prices: Prices, d: PriceType): real {
    Tokens(u, d) as real * PerToken(prices, d)
  }

  /** The base cost: token counts weighted by the price per token. */
  function BaseCost(u: Usage, prices: Prices): real {
    Term(u, prices, Input) + Term(u, prices, Output) + Term(u, prices, CacheCreation) + Term(u, prices, CacheRead) + Term(u, prices, Reasoning)
  }

  /** The sum of the first n terms. */
  ghost function Partial(u: Usage, prices: Prices, n: nat): real
    requires n <= 5
  {
    if n == 0 then 0.0 else Partial(u, prices, n - 1) + Term(u, prices, DIMENSIONS[n - 1])
  }

  lemma FullSum(u: Usage, prices: Prices)
    ensures Partial(u, prices, 5) == BaseCost(u, prices)
  {
    hide Term;
    assert Partial(u, prices, 1) == Term(u, prices, Input);
    assert Partial(u, prices, 2) == Partial(u, prices, 1) + Term(u, prices, Output);
    assert Partial(u, prices, 3) == Partial(u, prices, 2) + Term(u, prices, CacheCreation);
    assert Partial(u, prices, 4) == Partial(u, prices, 3) + Term(u, prices, CacheRead);
  }

  lemma Cancel(a: real, b: real, q: real)
    requires q != 0.0 && a * q == b * q
    ensures a == b
  {
    assert (a - b) * q == 0.0;
  }

  lemma QuotientTimes(x: real, q: real)
    requires q != 0.0
    ensures (x / q) * q == x
  {}

  /** Dividing before multiplying, or after, is the same in exact arithmetic. */
  lemma DivideFirst(t: real, p: real, q: real)
    requires q != 0.0
    ensures (t / q) * p == t * (p / q) == t * p / q
  {
    QuotientTimes(t, q);
    QuotientTimes(p, q);
    QuotientTimes(t * p, q);
    assert ((t / q) * p) * q == ((t / q) * q) * p;
    assert (t * (p / q)) * q == t * ((p / q) * q);
    Cancel((t / q) * p, t * p / q, q);
    Cancel(t * (p / q), t * p / q, q);
  }

  lemma TermAsCharged(u: Usage, prices: Prices, d: PriceType)
    ensures Tokens(u, d) == 0 || d !in prices ==> Term(u, prices, d) == 0.0
    ensures d in prices ==> (Tokens(u, d) as real / (UnitOf(prices[d].unitSize) as real)) * prices[d].price == Term(u, prices, d)
  {
    if d in prices { DivideFirst(Tokens(u, d) as real, prices[d].price, UnitOf(prices[d].unitSize) as real); }
  }

  /** A price with its unit size filled in charges the same. */
  lemma SameTerm(u: Usage, prices: Prices, points: Prices, d: PriceType)
    requires d in points <==> d in prices && Tokens(u, d) != 0
    requires d in points ==> points[d] == prices[d].(unitSize := UnitOf(prices[d].unitSize))
    ensures Term(u, points, d) == Term(u, prices, d)
  {
    TermAsCharged(u, prices, d);
    TermAsCharged(u, points, d);
  }

  /**
   * Calculate: skips unpriced and zero dimensions, returns the weighted sum, and records in
   * `points` the prices from which the same cost can be computed again.
   */
  method Calculate(u: Usage, prices: Prices) returns (base: real, points: Prices)
    ensures base == BaseCost(u, prices)
    ensures base == BaseCost(u, points)
    ensures forall d :: d in points <==> d in prices && Tokens(u, d) != 0
  {
    hide Term;
    base, points := 0.0, map[];
    for i := 0 to 5
      invariant base == Partial(u, prices, i)
      invariant forall d :: d in points <==> d in prices && d in DIMENSIONS[..i] && Tokens(u, d) != 0
      invariant forall d :: d in points ==> points[d] == prices[d].(unitSize := UnitOf(prices[d].unitSize))
    {
      var d := DIMENSIONS[i];
      assert DIMENSIONS[..i + 1] == DIMENSIONS[..i] + [d];
      var tokens := Tokens(u, d);
      TermAsCharged(u, prices, d);
      if d in prices && tokens != 0 {
        var unitSize := UnitOf(prices[d].unitSize);
        var cost := (tokens as real / (unitSize as real)) * prices[d].price;
        base := base + cost;
        points := points[d := prices[d].(unitSize := unitSize)];
      }
    }
    FullSum(u, prices);
    AllDimensions(u);
    forall d ensures Term(u, points, d) == Term(u, prices, d) { SameTerm(u, prices, points, d); }
  }

  lemma AllDimensions(u: Usage)
    ensures forall d :: Tokens(u, d) != 0 ==> d in DIMENSIONS[..5]
  {
    assert DIMENSIONS[..5] == DIMENSIONS;
    assert DIMENSIONS[0] == Input && DIMENSIONS[1] == Output && DIMENSIONS[2] == CacheCreation && DIMENSIONS[3] == CacheRead && DIMENSIONS[4] == Reasoning;
  }

  /** The price of a dimension per unit; nothing is charged for a dimension without a price. */
  function ListPrice(prices: Prices, d: PriceType): real {
    if d in prices then prices[d].price else 0.0
  }

  /** With one unit size throughout, the cost of a unit's worth is the sum of token-price products. */
  lemma ExactPerUnit(u: Usage, prices: Prices, unit: int)
    requires unit != 0
    requires forall d :: d in prices && !d.Other? ==> prices[d].unitSize == unit || (prices[d].unitSize == 0 && unit == 1_000_000)
    ensures BaseCost(u, prices) * unit as real ==
            u.input as real * ListPrice(prices, Input) + u.output as real * ListPrice(prices, Output) +
            u.cacheCreation as real * ListPrice(prices, CacheCreation) + u.cacheRead as real * ListPrice(prices, CacheRead) +
            u.reasoning as real * ListPrice(prices, Reasoning)
  {
    hide Term, ListPrice;
    UnitTerm(u, prices, Input, unit);
    UnitTerm(u, prices, Output, unit);
    UnitTerm(u, prices, CacheCreation, unit);
    UnitTerm(u, prices, CacheRead, unit);
    UnitTerm(u, prices, Reasoning, unit);
  }

  lemma UnitTerm(u: Usage, prices: Prices, d: PriceType, unit: int)
    requires unit != 0 && (d in prices ==> UnitOf(prices[d].unitSize) == unit)
    ensures Term(u, prices, d) * unit as real == Tokens(u, d) as real * ListPrice(prices, d)
  {
    if d in prices {
      var x := Tokens(u, d) as real;
      DivideFirst(x, prices[d].price, unit as real);
      QuotientTimes(x * prices[d].price, unit as real);
    }
  }

  /**
   * With the default unit size the cost is exact: a millionth of the sum of token-price products,
   * over the dimensions that have a price.
   */
  lemma ExactPerMillion(u: Usage, prices: Prices)
    requires forall d :: d in prices && !d.Other? ==> UnitOf(prices[d].unitSize) == DEFAULT_UNIT
    ensures BaseCost(u, prices) * 1_000_000.0 ==
            u.input as real * ListPrice(prices, Input) + u.output as real * ListPrice(prices, Output) +
            u.cacheCreation as real * ListPrice(prices, CacheCreation) + u.cacheRead as real * ListPrice(prices, CacheRead) +
            u.reasoning as real * ListPrice(prices, Reasoning)
  {
    hide BaseCost, ListPrice;
    ExactPerUnit(u, prices, 1_000_000);
  }

  function Plus(u: Usage, v: Usage): Usage {
    Usage(u.input + v.input, u.output + v.output, u.cacheCreation + v.cacheCreation, u.cacheRead + v.cacheRead, u.reasoning + v.reasoning)
  }

  predicate AtMost(u: Usage, v: Usage) {
    u.input <= v.input && u.output <= v.output && u.cacheCreation <= v.cacheCreation && u.cacheRead <= v.cacheRead && u.reasoning <= v.reasoning
  }

  // ---------------------------------------------------------------- markups

  ghost function TotalPct(pcts: seq<real>): real {
    if pcts == [] then 0.0 else TotalPct(pcts[..|pcts| - 1]) + pcts[|pcts| - 1]
  }

  ghost function Multiplier(pcts: seq<real>): real {
    1.0 + TotalPct(pcts) / 100.0
  }

  ghost function FinalCost(u: Usage, prices: Prices, pcts: seq<real>): real {
    BaseCost(u, prices) * Multiplier(pcts)
  }

  /** All percentages add up before they are applied; no markup and a zero base change nothing. */
  method ApplyMarkups(base: real, pcts: seq<real>) returns (final: real)
    ensures final == base * Multiplier(pcts)
  {
    if |pcts| == 0 || base == 0.0 {
      return base;
    }
    var totalPct := 0.0;
    for i := 0 to |pcts|
      invariant totalPct == TotalPct(pcts[..i])
    {
      assert pcts[..i + 1][..i] == pcts[..i];
      totalPct := totalPct + pcts[i];
    }
    assert pcts[..|pcts|] == pcts;
    var multiplier := 1.0 + totalPct / 100.0;
    return base * multiplier;
  }

  /** Process, steps 2 and 3: base cost, final cost and the markup between them. */
  method PriceEvent(u: Usage, prices: Prices, pcts: seq<real>) returns (base: real, markup: real, final: real, points: Prices)
    ensures base == BaseCost(u, prices) && final == FinalCost(u, prices, pcts)
    ensures base + markup == final
    ensures base == BaseCost(u, points)
  {
    hide BaseCost, Multiplier;
    base, points := Calculate(u, prices);
    final := ApplyMarkups(base, pcts);
    markup := final - base;
  }

  /**
   * A single markup of p percent makes the cost (100 + p) hundredths of the base; each further one adds
   * its percentage of the base, not of what was marked up already; without any nothing is added.
   */
  lemma MarkupsAdd(u: Usage, prices: Prices, pcts: seq<real>, p: real)
    ensures FinalCost(u, prices, []) == BaseCost(u, prices)
    ensures 100.0 * FinalCost(u, prices, [p]) == BaseCost(u, prices) * (100.0 + p)
    ensures 100.0 * (FinalCost(u, prices, pcts + [p]) - FinalCost(u, prices, pcts)) == BaseCost(u, prices) * p
  {
    hide BaseCost;
    assert (pcts + [p])[..|pcts|] == pcts && [p][..0] == [] && TotalPct([]) == 0.0;
    Marked(BaseCost(u, prices), 0.0, p);
    Marked(BaseCost(u, prices), TotalPct(pcts), p);
  }

  lemma Marked(b: real, t: real, p: real)
    ensures 100.0 * (b * (1.0 + (t + p) / 100.0) - b * (1.0 + t / 100.0)) == b * p
    ensures 100.0 * (b * (1.0 + p / 100.0)) == b * (100.0 + p)
  {
    assert (t + p) / 100.0 == t / 100.0 + p / 100.0;
    assert 100.0 * (b * (p / 100.0)) == b * p;
  }

  lemma SplitTerm(u: Usage, v: Usage, prices: Prices, d: PriceType)
    ensures Term(Plus(u, v), prices, d) == Term(u, prices, d) + Term(v, prices, d)
  {
    hide PerToken;
    var a, b, p := Tokens(u, d), Tokens(v, d), PerToken(prices, d);
    assert (a + b) as real * p == a as real * p + b as real * p;
  }

  /** Splitting an event's tokens over two events changes neither the base nor the final cost. */
  lemma SplittingKeepsCost(u: Usage, v: Usage, prices: Prices, pcts: seq<real>)
    ensures BaseCost(Plus(u, v), prices) == BaseCost(u, prices) + BaseCost(v, prices)
    ensures FinalCost(Plus(u, v), prices, pcts) == FinalCost(u, prices, pcts) + FinalCost(v, prices, pcts)
  {
    hide Term, Multiplier;
    SplitTerm(u, v, prices, Input);
    SplitTerm(u, v, prices, Output);
    SplitTerm(u, v, prices, CacheCreation);
    SplitTerm(u, v, prices, CacheRead);
    SplitTerm(u, v, prices, Reasoning);
    Distribute(BaseCost(u, prices), BaseCost(v, prices), Multiplier(pcts));
  }

  lemma Distribute(a: real, b: real, m: real)
    ensures (a + b) * m == a * m + b * m
  {}

  lemma TermGrows(u: Usage, v: Usage, prices: Prices, d: PriceType)
    requires Tokens(u, d) <= Tokens(v, d)
    requires d in prices ==> prices[d].price >= 0.0 && UnitOf(prices[d].unitSize) > 0
    ensures Term(u, prices, d) <= Term(v, prices, d)
  {
    if d in prices { NonNegativeQuotient(prices[d].price, UnitOf(prices[d].unitSize) as real); }
    ScaleUp(Tokens(u, d) as real, Tokens(v, d) as real, PerToken(prices, d));
  }

  lemma NonNegativeQuotient(p: real, q: real)
    requires p >= 0.0 && q > 0.0
    ensures p / q >= 0.0
  {}

  lemma ScaleUp(a: real, b: real, p: real)
    requires a <= b && p >= 0.0
    ensures a * p <= b * p
  {
    assert (b - a) * p >= 0.0;
  }

  /** With non-negative prices, more tokens never cost less. */
  lemma MoreTokensCostNoLess(u: Usage, v: Usage, prices: Prices, pcts: seq<real>)
    requires AtMost(u, v)
    requires forall d :: d in prices ==> prices[d].price >= 0.0 && UnitOf(prices[d].unitSize) > 0
    ensures BaseCost(u, prices) <= BaseCost(v, prices)
    ensures Multiplier(pcts) >= 0.0 ==> FinalCost(u, prices, pcts) <= FinalCost(v, prices, pcts)
  {
    hide Term, Multiplier;
    TermGrows(u, v, prices, Input);
    TermGrows(u, v, prices, Output);
    TermGrows(u, v, prices, CacheCreation);
    TermGrows(u, v, prices, CacheRead);
    TermGrows(u, v, prices, Reasoning);
    if Multiplier(pcts) >= 0.0 {
      ScaleUp(BaseCost(u, prices), BaseCost(v, prices), Multiplier(pcts));
    }
  }

  // ---------------------------------------------------------------- reservations

  /** ReserveSpend: maxTokens at the output price; nothing if the limit or the price is missing. */
  function WorstCase(prices: Prices, maxTokens: int): real {
    if maxTokens <= 0 || Output !in prices || prices[Output].unitSize == 0 then 0.0
    else prices[Output].price * (maxTokens as real) / (prices[Output].unitSize as real)
  }

  /** The reservation covers the base cost of the output of every response within maxTokens, and no more than the longest. */
  lemma ReservationCoversOutput(prices: Prices, maxTokens: int, u: Usage)
    requires 0 <= u.output <= maxTokens
    requires Output in prices ==> prices[Output].price >= 0.0 && prices[Output].unitSize > 0
    ensures Term(u, prices, Output) <= WorstCase(prices, maxTokens)
    ensures u.output == maxTokens ==> Term(u, prices, Output) == WorstCase(prices, maxTokens)
  {
    if Output in prices {
      var p, q := prices[Output].price, prices[Output].unitSize as real;
      NonNegativeQuotient(p, q);
      ScaleUp(u.output as real, maxTokens as real, p / q);
      DivideFirst(maxTokens as real, p, q);
    }
  }
}
