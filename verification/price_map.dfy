/**
 * The price-trend map page: the static table of Bengaluru localities with their
 * six-month price series, the lookup of the selected locality (with a fallback to
 * the first entry), the clamped price-to-marker-radius scale, the growth figure,
 * and the investment suggestion chosen by locality key.
 */
module PriceMap {
  import opened Wrappers

  /** One point of a trend series: month label and average price per sq.ft. */
  datatype TrendPoint = TrendPoint(month: string, price: int)

  /** A locality entry; coordinates are left out (floating-point map positions). */
  datatype Locality = Locality(
    key: string, name: string, status: string, color: string, trends: seq<TrendPoint>)

  const Months := ["June", "July", "Aug", "Sep", "Oct", "Nov"]

  function Series(prices: seq<int>): (r: seq<TrendPoint>)
    requires |prices| == |Months|
    ensures |r| == |Months|
    ensures forall i | 0 <= i < |r| :: r[i] == TrendPoint(Months[i], prices[i])
  {
    seq(|Months|, i requires 0 <= i < |Months| => TrendPoint(Months[i], prices[i]))
  }

  /** The monthly average prices of each locality, June to November. */
  const WhitefieldPrices: seq<int> := [8800, 9000, 9300, 9400, 9600, 9700]
  const KoramangalaPrices: seq<int> := [10500, 10700, 10900, 11100, 11300, 11450]
  const SarjapurPrices: seq<int> := [8100, 8200, 8300, 8500, 8600, 8800]
  const HebbalPrices: seq<int> := [9100, 9200, 9300, 9500, 9700, 9800]
  const ElectronicCityPrices: seq<int> := [7400, 7600, 7800, 7900, 8100, 8300]
  const HsrLayoutPrices: seq<int> := [9200, 9350, 9500, 9650, 9750, 9850]
  const YelahankaPrices: seq<int> := [8300, 8450, 8600, 8750, 8900, 9100]
  const MarathahalliPrices: seq<int> := [8600, 8700, 8800, 8900, 9020, 9150]

  const Localities: seq<Locality> := [
    Locality("Whitefield", "Whitefield", "High Growth", "#ff5722",
      Series(WhitefieldPrices)),
    Locality("Koramangala", "Koramangala", "Premium Market", "#4caf50",
      Series(KoramangalaPrices)),
    Locality("Sarjapur", "Sarjapur", "Upcoming Area", "#03a9f4",
      Series(SarjapurPrices)),
    Locality("Hebbal", "Hebbal", "Stable Market", "#9c27b0",
      Series(HebbalPrices)),
    Locality("Electronic City", "Electronic City", "Fast Developing", "#e91e63",
      Series(ElectronicCityPrices)),
    Locality("HSR Layout", "HSR Layout", "Residential Hub", "#ff9800",
      Series(HsrLayoutPrices)),
    Locality("Yelahanka", "Yelahanka", "Emerging North Hub", "#8bc34a",
      Series(YelahankaPrices)),
    Locality("Marathahalli", "Marathahalli", "Connector Hub", "#3f51b5",
      Series(MarathahalliPrices))
  ]

  const DefaultKey := "Whitefield"

  /** `LOCALITIES.find(l => l.key === key)`: the first entry with that key. */
  function Find(ls: seq<Locality>, key: string): (r: Option<Locality>)
    ensures r.None? <==> forall i | 0 <= i < |ls| :: ls[i].key != key
    ensures r.Some? ==> exists i | 0 <= i < |ls| ::
      ls[i] == r.value && r.value.key == key && forall j | 0 <= j < i :: ls[j].key != key
  {
    if |ls| == 0 then None
    else if ls[0].key == key then Some(ls[0])
    else
      var r := Find(ls[1..], key);
      if r.Some? then
        var i :| 0 <= i < |ls[1..]| && ls[1..][i] == r.value && r.value.key == key
          && forall j | 0 <= j < i :: ls[1..][j].key != key;
        assert ls[i + 1] == r.value;
        assert forall j | 0 <= j < i + 1 :: ls[j].key != key by {
          forall j | 0 <= j < i + 1 ensures ls[j].key != key {
            if j > 0 { assert ls[j] == ls[1..][j - 1]; }
          }
        }
        r
      else
        assert forall i | 0 <= i < |ls| :: ls[i].key != key by {
          forall i | 0 <= i < |ls| ensures ls[i].key != key {
            if i > 0 { assert ls[i] == ls[1..][i - 1]; }
          }
        }
        r
  }

  /** `selected`: the locality whose key is `key`, or the first locality. */
  function Selected(key: string): (r: Locality)
    ensures r in Localities
    ensures (exists i | 0 <= i < |Localities| :: Localities[i].key == key) ==> r.key == key
    ensures (forall i | 0 <= i < |Localities| :: Localities[i].key != key) ==> r == Localities[0]
  {
    Find(Localities, key).GetOr(Localities[0])
  }

  /** The price of the first and of the last month of a series. */
  function FirstPrice(l: Locality): int
    requires |l.trends| > 0
  {
    l.trends[0].price
  }

  function LastPrice(l: Locality): int
    requires |l.trends| > 0
  {
    l.trends[|l.trends| - 1].price
  }

  const MinPrice := 7000
  const MaxPrice := 12000
  const MinRadius := 6
  const MaxRadius := 16

  /** `Math.max(minP, Math.min(maxP, price))`. */
  function Clamp(price: int): (r: int)
    ensures MinPrice <= r <= MaxPrice
    ensures MinPrice <= price <= MaxPrice ==> r == price
  {
    if price < MinPrice then MinPrice else if price > MaxPrice then MaxPrice else price
  }

  /** The exact, unrounded radius the linear scale assigns to a price. */
  function ScaledRadius(price: int): real {
    MinRadius as real
      + (Clamp(price) - MinPrice) as real / (MaxPrice - MinPrice) as real
        * (MaxRadius - MinRadius) as real
  }

  /** `Math.round`: the nearest integer, halves rounded up. */
  function Round(x: real): (r: int)
    ensures r as real - 0.5 <= x < r as real + 0.5
  {
    (x + 0.5).Floor
  }

  /** The linear scale stays within the radius range. */
  lemma ScaledRadiusBounds(price: int)
    ensures MinRadius as real <= ScaledRadius(price) <= MaxRadius as real
    ensures price <= MinPrice ==> ScaledRadius(price) == MinRadius as real
    ensures price >= MaxPrice ==> ScaledRadius(price) == MaxRadius as real
  {
    var d := (Clamp(price) - MinPrice) as real;
    assert ScaledRadius(price) == 6.0 + d / 500.0;
  }

  /** `getRadiusFromPrice`: the linear map of [7000, 12000] onto [6, 16], clamped at
      both ends, then rounded with `Math.round`. */
  function RadiusFromPrice(price: int): (r: int)
    ensures MinRadius <= r <= MaxRadius
    ensures price <= MinPrice ==> r == MinRadius
    ensures price >= MaxPrice ==> r == MaxRadius
    ensures r as real - 0.5 <= ScaledRadius(price) < r as real + 0.5
  {
    ScaledRadiusBounds(price);
    Round(ScaledRadius(price))
  }

  /** A higher price never gets a smaller marker. */
  lemma RadiusMonotone(p: int, q: int)
    requires p <= q
    ensures RadiusFromPrice(p) <= RadiusFromPrice(q)
  {
    var dp := (Clamp(p) - MinPrice) as real;
    var dq := (Clamp(q) - MinPrice) as real;
    assert ScaledRadius(p) == 6.0 + dp / 500.0;
    assert ScaledRadius(q) == 6.0 + dq / 500.0;
    assert ScaledRadius(p) <= ScaledRadius(q);
  }

  /** The marker radius of a locality: scaled from its latest price. */
  function MarkerRadius(l: Locality): (r: int)
    requires |l.trends| > 0
    ensures MinRadius <= r <= MaxRadius
  {
    RadiusFromPrice(l.trends[|l.trends| - 1].price)
  }

  /** The "Current Avg" figure of the info card for the selected key. */
  function CurrentAvg(key: string): (r: int)
    requires forall i | 0 <= i < |Localities| :: |Localities[i].trends| > 0
    ensures r == LastPrice(Selected(key))
    ensures forall k | 0 <= k < |Selected(key).trends| :: Selected(key).trends[k].price <= r
  {
    SelectedWellFormed(key);
    LatestIsHighest(Selected(key));
    LastPrice(Selected(key))
  }

  /** The selected locality, like every row of the table, has a well-formed series. */
  lemma SelectedWellFormed(key: string)
    ensures WellFormedTrend(Selected(key).trends)
  {
    TableTrendsWellFormed();
    var i :| 0 <= i < |Localities| && Localities[i] == Selected(key);
  }

  /** In a well-formed series the latest price is the highest. */
  lemma LatestIsHighest(l: Locality)
    requires WellFormedTrend(l.trends)
    ensures forall k | 0 <= k < |l.trends| :: l.trends[k].price <= LastPrice(l)
  {
    forall k | 0 <= k < |l.trends| - 1 ensures l.trends[k].price < LastPrice(l) {
      RisingUpTo(l.trends, k, |l.trends| - 1);
    }
  }

  /** The marker of every table entry is sized from the very price the info card
      shows as "Current Avg" once that entry is selected. */
  lemma MarkerMatchesInfoCard(i: int)
    requires 0 <= i < |Localities|
    ensures |Localities[i].trends| > 0
    ensures MarkerRadius(Localities[i]) == RadiusFromPrice(CurrentAvg(Localities[i].key))
  {
    TableTrendsWellFormed();
    KeysUnique();
    assert Selected(Localities[i].key) == Localities[i];
  }

  /** The growth over the series, as a percentage (formatting to one decimal left out). */
  function GrowthPercent(l: Locality): (r: real)
    requires |l.trends| > 0 && FirstPrice(l) != 0
    ensures r * FirstPrice(l) as real == (LastPrice(l) - FirstPrice(l)) as real * 100.0
    ensures FirstPrice(l) > 0 ==> (r > 0.0 <==> FirstPrice(l) < LastPrice(l))
  {
    (LastPrice(l) - FirstPrice(l)) as real / FirstPrice(l) as real * 100.0
  }

  /** A series with the six month labels in order and strictly rising prices. */
  predicate WellFormedTrend(ts: seq<TrendPoint>) {
    && |ts| == |Months|
    && (forall i | 0 <= i < |ts| :: ts[i].month == Months[i])
    && (forall i | 0 < i < |ts| :: ts[i - 1].price < ts[i].price)
  }

  predicate Rising(prices: seq<int>) {
    forall i | 0 < i < |prices| :: prices[i - 1] < prices[i]
  }

  lemma SeriesWellFormed(prices: seq<int>)
    requires |prices| == |Months| && Rising(prices)
    ensures WellFormedTrend(Series(prices))
  {
  }

  /** The month labels and price order of the whole table. */
  lemma TableTrendsWellFormed()
    ensures forall i | 0 <= i < |Localities| :: WellFormedTrend(Localities[i].trends)
  {
    forall i | 0 <= i < |Localities| ensures WellFormedTrend(Localities[i].trends) {
      var prices :=
        if i == 0 then WhitefieldPrices else if i == 1 then KoramangalaPrices
        else if i == 2 then SarjapurPrices else if i == 3 then HebbalPrices
        else if i == 4 then ElectronicCityPrices else if i == 5 then HsrLayoutPrices
        else if i == 6 then YelahankaPrices else MarathahalliPrices;
      assert Localities[i].trends == Series(prices);
      SeriesWellFormed(prices);
    }
  }

  /** Strictly rising prices: the first month is below every later month. */
  lemma {:induction false} RisingSeries(ts: seq<TrendPoint>, k: int)
    requires forall i | 0 < i < |ts| :: ts[i - 1].price < ts[i].price
    requires 0 < k < |ts|
    ensures ts[0].price < ts[k].price
    decreases k
  {
    if k > 1 {
      RisingSeries(ts, k - 1);
    }
  }

  /** Strictly rising prices: an earlier month is below every later month. */
  lemma {:induction false} RisingUpTo(ts: seq<TrendPoint>, j: int, k: int)
    requires forall i | 0 < i < |ts| :: ts[i - 1].price < ts[i].price
    requires 0 <= j < k < |ts|
    ensures ts[j].price < ts[k].price
    decreases k - j
  {
    if j + 1 < k {
      RisingUpTo(ts, j + 1, k);
    }
  }

  /** Every locality grew over the six months: first < last, so the growth shown is
      positive, and every current price lies in the scale's range or below it. */
  lemma TableGrowthPositive()
    ensures forall i | 0 <= i < |Localities| ::
      FirstPrice(Localities[i]) < LastPrice(Localities[i]) && GrowthPercent(Localities[i]) > 0.0
  {
    TableTrendsWellFormed();
    TablePricesPositive();
    forall i | 0 <= i < |Localities|
      ensures FirstPrice(Localities[i]) < LastPrice(Localities[i]) && GrowthPercent(Localities[i]) > 0.0
    {
      GrowthPositive(Localities[i]);
    }
  }

  /** Every series of the table opens at a positive price. */
  lemma TablePricesPositive()
    ensures forall i | 0 <= i < |Localities| :: |Localities[i].trends| > 0 && FirstPrice(Localities[i]) > 0
  {
  }

  /** A well-formed series that opens at a positive price shows positive growth. */
  lemma GrowthPositive(l: Locality)
    requires WellFormedTrend(l.trends) && FirstPrice(l) > 0
    ensures FirstPrice(l) < LastPrice(l) && GrowthPercent(l) > 0.0
  {
    RisingSeries(l.trends, |l.trends| - 1);
  }

  /** No two localities share a key. */
  lemma KeysUnique()
    ensures forall i, j | 0 <= i < j < |Localities| :: Localities[i].key != Localities[j].key
  {
  }

  /** The page's only state: the key of the selected locality. */
  datatype MapState = MapState(selectedKey: string)

  const InitialState := MapState(DefaultKey)

  /** Clicking the marker or the quick button of table entry `i` selects its key. */
  function ClickLocality(s: MapState, i: int): (r: MapState)
    requires 0 <= i < |Localities|
    ensures Selected(r.selectedKey) == Localities[i]
  {
    KeysUnique();
    MapState(Localities[i].key)
  }

  /** The state after a sequence of clicks on table entries. */
  function ClickAll(s: MapState, clicks: seq<int>): MapState
    requires forall k | 0 <= k < |clicks| :: 0 <= clicks[k] < |Localities|
    decreases |clicks|
  {
    if |clicks| == 0 then s
    else ClickAll(ClickLocality(s, clicks[0]), clicks[1..])
  }

  /** The selected key, from the initial state on, is always a key of the table, so
      the fallback to the first entry is never what the page shows. */
  lemma {:induction false} SelectedKeyAlwaysInTable(s: MapState, clicks: seq<int>)
    requires exists i | 0 <= i < |Localities| :: Localities[i].key == s.selectedKey
    requires forall k | 0 <= k < |clicks| :: 0 <= clicks[k] < |Localities|
    ensures Find(Localities, ClickAll(s, clicks).selectedKey).Some?
    decreases |clicks|
  {
    if |clicks| == 0 {
    } else {
      var s' := ClickLocality(s, clicks[0]);
      assert Localities[clicks[0]].key == s'.selectedKey;
      SelectedKeyAlwaysInTable(s', clicks[1..]);
    }
  }

  /** The starting key names the first table entry. */
  lemma InitialKeyInTable()
    ensures Localities[0].key == InitialState.selectedKey
    ensures Selected(InitialState.selectedKey) == Localities[0]
  {
  }

  const SarjapurAdvice := "Good for long-term growth; infrastructure projects planned."
  const KoramangalaAdvice := "Premium area — higher entry price but stable returns."
  const ElectronicCityAdvice := "Affordable with strong appreciation potential."
  const WhitefieldAdvice := "High demand from IT professionals — good rental yield."
  const DefaultAdvice := "Balanced locality with reliable connectivity."

  /** The investment suggestion for the selected key. */
  function Suggestion(key: string): (r: string)
    ensures r == DefaultAdvice <==>
      key != "Sarjapur" && key != "Koramangala" && key != "Electronic City" && key != "Whitefield"
    ensures key == "Sarjapur" ==> r == SarjapurAdvice
    ensures key == "Koramangala" ==> r == KoramangalaAdvice
    ensures key == "Electronic City" ==> r == ElectronicCityAdvice
    ensures key == "Whitefield" ==> r == WhitefieldAdvice
  {
    if key == "Sarjapur" then SarjapurAdvice
    else if key == "Koramangala" then KoramangalaAdvice
    else if key == "Electronic City" then ElectronicCityAdvice
    else if key == "Whitefield" then WhitefieldAdvice
    else DefaultAdvice
  }

  /** The keys that get advice of their own, in the order the page tests them. */
  const AdvisedKeys := ["Sarjapur", "Koramangala", "Electronic City", "Whitefield"]

  /** Every specific advice can be reached: each advised key is the key of a table
      row, so clicking that row shows its own advice. Every other row shows the
      default advice, and at least one row does. */
  lemma AdviceReachable()
    ensures forall j | 0 <= j < |AdvisedKeys| ::
      exists i | 0 <= i < |Localities| ::
        && Localities[i].key == AdvisedKeys[j]
        && Suggestion(Selected(ClickLocality(InitialState, i).selectedKey).key) != DefaultAdvice
    ensures forall i | 0 <= i < |Localities| && Localities[i].key !in AdvisedKeys ::
      Suggestion(Selected(ClickLocality(InitialState, i).selectedKey).key) == DefaultAdvice
    ensures exists i | 0 <= i < |Localities| ::
      Suggestion(Selected(ClickLocality(InitialState, i).selectedKey).key) == DefaultAdvice
  {
    forall j | 0 <= j < |AdvisedKeys|
      ensures exists i | 0 <= i < |Localities| ::
        && Localities[i].key == AdvisedKeys[j]
        && Suggestion(Selected(ClickLocality(InitialState, i).selectedKey).key) != DefaultAdvice
    {
      AdvisedKeyInTable(j);
    }
    forall i | 0 <= i < |Localities| && Localities[i].key !in AdvisedKeys
      ensures Suggestion(Selected(ClickLocality(InitialState, i).selectedKey).key) == DefaultAdvice
    {
      ClickedAdvice(i);
    }
    TableKeys();
    ClickedAdvice(3);
  }

  /** The `j`-th advised key is the key of some row, whose click shows its advice. */
  lemma AdvisedKeyInTable(j: int)
    requires 0 <= j < |AdvisedKeys|
    ensures exists i | 0 <= i < |Localities| ::
      && Localities[i].key == AdvisedKeys[j]
      && Suggestion(Selected(ClickLocality(InitialState, i).selectedKey).key) != DefaultAdvice
  {
    TableKeys();
    var i := if j == 0 then 2 else if j == 1 then 1 else if j == 2 then 4 else 0;
    assert Localities[i].key == AdvisedKeys[j];
    AdvisedAt(i);
  }

  /** Clicking a row whose key is advised shows that key's own advice. */
  lemma AdvisedAt(i: int)
    requires 0 <= i < |Localities| && Localities[i].key in AdvisedKeys
    ensures Suggestion(Selected(ClickLocality(InitialState, i).selectedKey).key) != DefaultAdvice
  {
    ClickedAdvice(i);
  }

  /** The keys of the table, row by row. */
  lemma TableKeys()
    ensures |Localities| == 8
    ensures Localities[0].key == "Whitefield" && Localities[1].key == "Koramangala"
    ensures Localities[2].key == "Sarjapur" && Localities[3].key == "Hebbal"
    ensures Localities[4].key == "Electronic City"
  {
  }

  /** Clicking row `i` shows the advice for that row's key. */
  lemma ClickedAdvice(i: int)
    requires 0 <= i < |Localities|
    ensures Suggestion(Selected(ClickLocality(InitialState, i).selectedKey).key) == Suggestion(Localities[i].key)
  {
    var s := ClickLocality(InitialState, i);
    assert Selected(s.selectedKey) == Localities[i];
  }
}
