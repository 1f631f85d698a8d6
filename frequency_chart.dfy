/** The explorer's frequency bar chart: the twenty most frequent grains, the
    chart's height and the bar colour for a sentiment. */
module FrequencyChart {
  import opened Wrappers
  import opened Grains
  import opened Sorting

  const MaxBars: nat := 20
  const MinHeight: nat := 300
  const BarHeight: nat := 32

  datatype ChartDatum = ChartDatum(word: string, frequency: int, sentiment: string)

  /** The bar for one grain: frequency 0 and sentiment "neutral" when absent. */
  function Datum(g: Grain): (d: ChartDatum)
    ensures d.word == g.word
    ensures d.frequency == (if g.frequency.Some? then g.frequency.value else 0)
    ensures d.sentiment == (if g.sentiment.Some? then g.sentiment.value else "neutral")
  {
    ChartDatum(g.word, g.frequency.GetOr(0), g.sentiment.GetOr("neutral"))
  }

  /** `[...grains].sort((a, b) => (b.frequency ?? 0) - (a.frequency ?? 0))` */
  function Ranked(grains: seq<Grain>): (r: seq<Grain>)
    ensures multiset(r) == multiset(grains)
  {
    SortBy(grains, ByKeyDesc(FrequencyOrZero))
  }

  /** `.slice(0, 20).map(...)`: the bars, from the front of the ranking. */
  function ChartData(grains: seq<Grain>): (data: seq<ChartDatum>)
    ensures |data| == if |grains| < MaxBars then |grains| else MaxBars
    ensures forall i :: 0 <= i < |data| ==> data[i] == Datum(Ranked(grains)[i])
  {
    var ranked := Ranked(grains);
    var top := if |ranked| < MaxBars then ranked else ranked[..MaxBars];
    seq(|top|, i requires 0 <= i < |top| => Datum(top[i]))
  }

  /** The bars run from the highest frequency down, and no grain left off the
      chart is more frequent than any bar on it. */
  lemma ChartDataRanked(grains: seq<Grain>)
    ensures var data := ChartData(grains);
      forall i, j :: 0 <= i < j < |data| ==> data[i].frequency >= data[j].frequency
    ensures var data := ChartData(grains);
      forall i, j :: 0 <= i < |data| && |data| <= j < |grains| ==> FrequencyOrZero(Ranked(grains)[j]) <= data[i].frequency
  {
    SortByKeyDescSorted(grains, FrequencyOrZero);
    var data := ChartData(grains);
    var ranked := Ranked(grains);
    assert |ranked| == |grains|;
    forall i, j | 0 <= i < |data| && i < j < |grains|
      ensures FrequencyOrZero(ranked[j]) <= data[i].frequency
    {
      assert data[i].frequency == FrequencyOrZero(ranked[i]);
    }
  }

  /** Every bar is one of the grains, and grains of equal frequency appear in
      their original order. */
  lemma ChartDataFromGrains(grains: seq<Grain>, k: int)
    ensures forall i :: 0 <= i < |ChartData(grains)| ==> Ranked(grains)[i] in grains
    ensures WithKey(Ranked(grains), FrequencyOrZero, k) == WithKey(grains, FrequencyOrZero, k)
  {
    var ranked := Ranked(grains);
    forall i | 0 <= i < |ChartData(grains)|
      ensures ranked[i] in grains
    {
      assert ranked[i] in multiset(grains);
    }
    SortByKeyDescStable(grains, FrequencyOrZero, k);
  }

  /** `Math.max(300, data.length * 32)` */
  function ChartHeight(points: nat): (h: nat)
    ensures h >= MinHeight && h >= BarHeight * points
    ensures h == MinHeight || h == BarHeight * points
  {
    if MinHeight >= points * BarHeight then MinHeight else points * BarHeight
  }

  /** With at most twenty bars the height is between 300 and 640. */
  lemma ChartHeightBounds(grains: seq<Grain>)
    ensures MinHeight <= ChartHeight(|ChartData(grains)|) <= MaxBars * BarHeight
  {
  }

  const PositiveColor: string := "#16a34a"
  const NegativeColor: string := "#dc2626"
  const NeutralColor: string := "#71717a"
  const MixedColor: string := "#2563eb"

  /** `SENTIMENT_COLORS[name]` for the four own keys; undefined for any other
      name (inherited members such as `constructor` are not modelled). */
  function ColorFor(name: string): Option<string> {
    if name == "positive" then Some(PositiveColor)
    else if name == "negative" then Some(NegativeColor)
    else if name == "neutral" then Some(NeutralColor)
    else if name == "mixed" then Some(MixedColor)
    else None
  }

  /** `getSentimentColor(sentiment)` */
  function SentimentColor(sentiment: Option<string>): string {
    ColorFor(sentiment.GetOr("neutral")).GetOr(NeutralColor)
  }

  /** Each of the four sentiments has its own colour; an absent or unknown
      sentiment gets the neutral colour. */
  lemma SentimentColors(sentiment: Option<string>)
    ensures sentiment == Some("positive") ==> SentimentColor(sentiment) == PositiveColor
    ensures sentiment == Some("negative") ==> SentimentColor(sentiment) == NegativeColor
    ensures sentiment == Some("mixed") ==> SentimentColor(sentiment) == MixedColor
    ensures SentimentColor(sentiment) == NeutralColor <==>
      sentiment.None? || sentiment.value !in ["positive", "negative", "mixed"]
  {
  }
}
