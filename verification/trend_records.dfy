/** The three immutable trend values an item's Grand Exchange record holds:
    a price with its trend (`trend/PriceTrend.java`), a change in price with
    its trend (`trend/PriceChangeTrend.java`) and a change in percent with its
    trend (`trend/PercentChangeTrend.java`).

    A Java constructor that can throw becomes a function returning a
    `Result`; a `null` argument is a `None`.
 */
module TrendRecords {
  import opened Results
  import opened Numbers
  import opened Trends

  /** `PriceTrend`: the price of an item together with its trend. */
  datatype PriceTrend = PriceTrend(trend: Trend, price: Int32)

  /** `PriceChangeTrend`: a change of price, of any sign or size. */
  datatype PriceChangeTrend = PriceChangeTrend(trend: Trend, priceChange: Int32)

  /** `PercentChangeTrend`: a change in percent, kept as an exact fraction
      (1 stands for 100 %); neither its sign nor its size is limited. */
  datatype PercentChangeTrend = PercentChangeTrend(trend: Trend, percentChange: real)

  /** What every `PriceTrend` instance satisfies: a strictly positive price. */
  predicate ValidPriceTrend(p: PriceTrend) {
    p.price > 0
  }

  /** `new PriceTrend(trend, price)`: the trend is checked first, then the price. */
  function NewPriceTrend(trend: Option<Trend>, price: Int32): (r: Result<PriceTrend>)
    ensures r.Success? <==> trend.Some? && price > 0
    ensures r.Success? ==> r.value == PriceTrend(trend.value, price) && ValidPriceTrend(r.value)
    ensures trend.None? ==> r == Failure(NullValue("trend null"))
    ensures trend.Some? && price <= 0 ==> r == Failure(IllegalArgument(Reason("invalid price", price)))
  {
    if trend.None? then Failure(NullValue("trend null"))
    else if price <= 0 then Failure(IllegalArgument(Reason("invalid price", price)))
    else Success(PriceTrend(trend.value, price))
  }

  /** `new PriceChangeTrend(trend, priceChange)`: only the trend is checked. */
  function NewPriceChangeTrend(trend: Option<Trend>, priceChange: Int32): (r: Result<PriceChangeTrend>)
    ensures r.Success? <==> trend.Some?
    ensures r.Success? ==> r.value.trend == trend.value && r.value.priceChange == priceChange
    ensures trend.None? ==> r == Failure(NullValue("trend null"))
  {
    if trend.None? then Failure(NullValue("trend null"))
    else Success(PriceChangeTrend(trend.value, priceChange))
  }

  /** `new PercentChangeTrend(trend, percentChange)`: only the trend is checked. */
  function NewPercentChangeTrend(trend: Option<Trend>, percentChange: real): (r: Result<PercentChangeTrend>)
    ensures r.Success? <==> trend.Some?
    ensures r.Success? ==> r.value.trend == trend.value && r.value.percentChange == percentChange
    ensures trend.None? ==> r == Failure(NullValue("trend null"))
  {
    if trend.None? then Failure(NullValue("trend null"))
    else Success(PercentChangeTrend(trend.value, percentChange))
  }

  /** The constructor builds exactly the valid price trends: each of them
      from its own fields, and nothing else. */
  lemma PriceTrendConstructible(p: PriceTrend)
    ensures NewPriceTrend(Some(p.trend), p.price) == Success(p) <==> ValidPriceTrend(p)
  {
  }

  /** Every price change trend and every percent change trend is built from
      its own fields. */
  lemma ChangeTrendsConstructible(c: PriceChangeTrend, q: PercentChangeTrend)
    ensures NewPriceChangeTrend(Some(c.trend), c.priceChange) == Success(c)
    ensures NewPercentChangeTrend(Some(q.trend), q.percentChange) == Success(q)
  {
  }

  /** `PriceTrend.equals`: same trend and same price. */
  function PriceTrendEquals(a: PriceTrend, b: PriceTrend): (eq: bool)
    ensures eq <==> a == b
  {
    a.trend == b.trend && a.price == b.price
  }

  /** `PriceChangeTrend.equals`: same trend and same change. */
  function PriceChangeTrendEquals(a: PriceChangeTrend, b: PriceChangeTrend): (eq: bool)
    ensures eq <==> a == b
  {
    a.trend == b.trend && a.priceChange == b.priceChange
  }

  /** `PercentChangeTrend.equals`: same trend, and `Double.compare` finds the
      two changes equal. */
  function PercentChangeTrendEquals(a: PercentChangeTrend, b: PercentChangeTrend): (eq: bool)
    ensures eq <==> a == b
  {
    a.trend == b.trend && a.percentChange == b.percentChange
  }
}
