/** The comparison view's statistics: per-document counts, averages and
    sentiment buckets, and the words two documents share, ranked by their
    combined frequency. */
module StatsSummary {
  import opened Wrappers
  import opened Grains
  import opened Sorting

  datatype SentimentCounts = SentimentCounts(positive: nat, negative: nat, neutral: nat, mixed: nat)

  /** An average kept as the exact pair `sum / count`; `count` is positive. */
  datatype Mean = Mean(sum: int, count: nat)

  datatype DocumentStats = DocumentStats(
    grainCount: nat,
    avgFrequency: Option<Mean>,
    avgTfidf: Option<Mean>,
    sentiment: SentimentCounts)

  // ---------------------------------------------------------------------
  // Averages

  function FrequencyOf(g: Grain): Option<int> { g.frequency }

  function TfidfOf(g: Grain): Option<int> { g.tfidf }

  /** `grains.filter(g => field(g) !== undefined)`, keeping the values. */
  function PresentValues(grains: seq<Grain>, field: Grain -> Option<int>): (r: seq<int>)
    ensures |r| <= |grains|
  {
    if grains == [] then []
    else (if field(grains[0]).Some? then [field(grains[0]).value] else []) + PresentValues(grains[1..], field)
  }

  function Sum(xs: seq<int>): int {
    if xs == [] then 0 else xs[0] + Sum(xs[1..])
  }

  /** `xs.length > 0 ? reduce(+, 0) / xs.length : null` */
  function MeanOf(xs: seq<int>): Option<Mean> {
    if |xs| > 0 then Some(Mean(Sum(xs), |xs|)) else None
  }

  /** The field summed over every grain, an absent value counting as 0. */
  function SumOrZero(grains: seq<Grain>, field: Grain -> Option<int>): int {
    if grains == [] then 0 else field(grains[0]).GetOr(0) + SumOrZero(grains[1..], field)
  }

  /** There is no average exactly when no grain has the field. */
  lemma {:induction false} NoValuesIffAbsentEverywhere(grains: seq<Grain>, field: Grain -> Option<int>)
    ensures MeanOf(PresentValues(grains, field)).None? <==> forall i :: 0 <= i < |grains| ==> field(grains[i]).None?
  {
    if grains != [] {
      NoValuesIffAbsentEverywhere(grains[1..], field);
      if field(grains[0]).None? {
        forall i | 0 < i < |grains|
          ensures field(grains[i]).None? <==> field(grains[1..][i - 1]).None?
        {
          assert grains[1..][i - 1] == grains[i];
        }
      }
    }
  }

  /** The average's numerator is the sum over all grains with absent values
      as 0, and its denominator counts the grains that have the field. */
  lemma {:induction false} MeanSumsPresentValues(grains: seq<Grain>, field: Grain -> Option<int>)
    ensures Sum(PresentValues(grains, field)) == SumOrZero(grains, field)
  {
    if grains != [] {
      MeanSumsPresentValues(grains[1..], field);
      var head := if field(grains[0]).Some? then [field(grains[0]).value] else [];
      var rest := PresentValues(grains[1..], field);
      assert head + rest == PresentValues(grains, field);
      if head == [] {
        assert head + rest == rest;
      } else {
        assert (head + rest)[1..] == rest;
      }
    }
  }

  // ---------------------------------------------------------------------
  // Sentiment buckets

  const Buckets: seq<string> := ["positive", "negative", "neutral", "mixed"]

  /** `sentiment[name]++` */
  function Increment(c: SentimentCounts, name: string): SentimentCounts {
    if name == "positive" then c.(positive := c.positive + 1)
    else if name == "negative" then c.(negative := c.negative + 1)
    else if name == "neutral" then c.(neutral := c.neutral + 1)
    else if name == "mixed" then c.(mixed := c.mixed + 1)
    else c
  }

  /** `g.sentiment && g.sentiment in sentiment`: a non-empty sentiment that
      names one of the four buckets. */
  predicate Counted(s: Option<string>) {
    s.Some? && s.value != "" && s.value in Buckets
  }

  /** The counters after the loop has seen `grains`. */
  function CountSentiments(grains: seq<Grain>): SentimentCounts {
    if grains == [] then SentimentCounts(0, 0, 0, 0)
    else
      var before := CountSentiments(grains[..|grains| - 1]);
      var s := grains[|grains| - 1].sentiment;
      if Counted(s) then Increment(before, s.value) else before
  }

  function Bucket(c: SentimentCounts, name: string): nat {
    if name == "positive" then c.positive
    else if name == "negative" then c.negative
    else if name == "neutral" then c.neutral
    else if name == "mixed" then c.mixed
    else 0
  }

  function Total(c: SentimentCounts): nat {
    c.positive + c.negative + c.neutral + c.mixed
  }

  /** The number of grains whose sentiment is `name`. */
  function CountWith(grains: seq<Grain>, name: string): nat {
    if grains == [] then 0
    else CountWith(grains[..|grains| - 1], name) + (if grains[|grains| - 1].sentiment == Some(name) then 1 else 0)
  }

  /** The number of grains that fall into some bucket. */
  function CountCounted(grains: seq<Grain>): (r: nat)
    ensures r <= |grains|
  {
    if grains == [] then 0
    else CountCounted(grains[..|grains| - 1]) + (if Counted(grains[|grains| - 1].sentiment) then 1 else 0)
  }

  /** Each bucket counts exactly the grains with that sentiment. */
  lemma {:induction false} BucketCountsSentiment(grains: seq<Grain>, name: string)
    requires name in Buckets
    ensures Bucket(CountSentiments(grains), name) == CountWith(grains, name)
  {
    if grains != [] {
      BucketCountsSentiment(grains[..|grains| - 1], name);
    }
  }

  /** Every grain adds to at most one bucket, so the buckets sum to the
      number of counted grains, never more than the number of grains. */
  lemma {:induction false} BucketsSumToCounted(grains: seq<Grain>)
    ensures Total(CountSentiments(grains)) == CountCounted(grains)
    ensures Total(CountSentiments(grains)) <= |grains|
  {
    if grains != [] {
      BucketsSumToCounted(grains[..|grains| - 1]);
    }
  }

  /** `computeStats(doc)` */
  method ComputeStats(grains: seq<Grain>) returns (stats: DocumentStats)
    ensures stats.grainCount == |grains|
    ensures stats.avgFrequency == MeanOf(PresentValues(grains, FrequencyOf))
    ensures stats.avgTfidf == MeanOf(PresentValues(grains, TfidfOf))
    ensures stats.sentiment == CountSentiments(grains)
  {
    var counts := SentimentCounts(0, 0, 0, 0);
    for i := 0 to |grains|
      invariant counts == CountSentiments(grains[..i])
    {
      assert grains[..i + 1][..i] == grains[..i];
      var s := grains[i].sentiment;
      if s.Some? && s.value != "" && s.value in Buckets {
        counts := Increment(counts, s.value);
      }
    }
    assert grains[..|grains|] == grains;
    stats := DocumentStats(|grains|, MeanOf(PresentValues(grains, FrequencyOf)),
                           MeanOf(PresentValues(grains, TfidfOf)), counts);
  }

  /** `formatNum(value)`: "--" for a missing value, `toFixed(2)` otherwise. */
  function FormatNum(value: Option<Mean>, toFixed: Mean -> string): string {
    match value
    case None => "--"
    case Some(m) => toFixed(m)
  }

  /** A document none of whose grains has a frequency shows "--" as its
      average frequency. */
  lemma NoFrequencyShowsDashes(grains: seq<Grain>, toFixed: Mean -> string)
    requires forall i :: 0 <= i < |grains| ==> grains[i].frequency.None?
    ensures FormatNum(MeanOf(PresentValues(grains, FrequencyOf)), toFixed) == "--"
  {
    NoValuesIffAbsentEverywhere(grains, FrequencyOf);
  }

  // ---------------------------------------------------------------------
  // Common words

  datatype CommonWord = CommonWord(
    word: string,
    leftFrequency: Option<int>,
    rightFrequency: Option<int>,
    leftTfidf: Option<int>,
    rightTfidf: Option<int>)

  /** `(g.normalized ?? g.word).toLowerCase()` */
  function JoinKey(g: Grain, lower: string -> string): string {
    lower(g.normalized.GetOr(g.word))
  }

  /** `rightMap` after `set(key, g)` for every grain in order. */
  function KeyMap(grains: seq<Grain>, lower: string -> string): map<string, Grain> {
    if grains == [] then map[]
    else
      var last := grains[|grains| - 1];
      KeyMap(grains[..|grains| - 1], lower)[JoinKey(last, lower) := last]
  }

  /** The map has exactly the keys of the grains. */
  lemma {:induction false} KeyMapKeys(grains: seq<Grain>, lower: string -> string, k: string)
    ensures k in KeyMap(grains, lower) <==> exists i :: 0 <= i < |grains| && JoinKey(grains[i], lower) == k
  {
    if grains != [] {
      var init := grains[..|grains| - 1];
      KeyMapKeys(init, lower, k);
      if k in KeyMap(init, lower) {
        var i :| 0 <= i < |init| && JoinKey(init[i], lower) == k;
        assert grains[i] == init[i];
      }
      if exists i :: 0 <= i < |grains| && JoinKey(grains[i], lower) == k {
        var i :| 0 <= i < |grains| && JoinKey(grains[i], lower) == k;
        if i < |init| {
          assert init[i] == grains[i];
        }
      }
    }
  }

  /** When several grains share a key, the map holds the last of them. */
  lemma {:induction false} KeyMapLastWins(grains: seq<Grain>, lower: string -> string, i: nat)
    requires i < |grains|
    requires forall j :: i < j < |grains| ==> JoinKey(grains[j], lower) != JoinKey(grains[i], lower)
    ensures JoinKey(grains[i], lower) in KeyMap(grains, lower)
    ensures KeyMap(grains, lower)[JoinKey(grains[i], lower)] == grains[i]
  {
    if i < |grains| - 1 {
      var init := grains[..|grains| - 1];
      assert init[i] == grains[i];
      forall j | i < j < |init|
        ensures JoinKey(init[j], lower) != JoinKey(init[i], lower)
      {
        assert init[j] == grains[j];
      }
      KeyMapLastWins(init, lower, i);
    }
  }

  /** The entry `common.push` adds for a left grain and its match. */
  function CommonOf(g: Grain, partner: Grain): CommonWord {
    CommonWord(g.word, g.frequency, partner.frequency, g.tfidf, partner.tfidf)
  }

  /** `common` after the loop over the left grains: one entry per left grain
      whose key is in the map, in left order. */
  function Matches(left: seq<Grain>, rightMap: map<string, Grain>, lower: string -> string): (r: seq<CommonWord>)
    ensures |r| <= |left|
  {
    if left == [] then []
    else
      var g := left[|left| - 1];
      var key := JoinKey(g, lower);
      Matches(left[..|left| - 1], rightMap, lower) + (if key in rightMap then [CommonOf(g, rightMap[key])] else [])
  }

  /** Every entry comes from a left grain whose key the right side has. */
  lemma {:induction false} MatchesSound(left: seq<Grain>, rightMap: map<string, Grain>, lower: string -> string, c: CommonWord)
    requires c in Matches(left, rightMap, lower)
    ensures exists i :: 0 <= i < |left| && JoinKey(left[i], lower) in rightMap &&
                        c == CommonOf(left[i], rightMap[JoinKey(left[i], lower)])
  {
    var init := left[..|left| - 1];
    var g := left[|left| - 1];
    if c in Matches(init, rightMap, lower) {
      MatchesSound(init, rightMap, lower, c);
      var i :| 0 <= i < |init| && JoinKey(init[i], lower) in rightMap &&
               c == CommonOf(init[i], rightMap[JoinKey(init[i], lower)]);
      assert left[i] == init[i];
    } else {
      assert c == CommonOf(g, rightMap[JoinKey(g, lower)]);
    }
  }

  /** Every left grain whose key the right side has contributes its entry. */
  lemma {:induction false} MatchesComplete(left: seq<Grain>, rightMap: map<string, Grain>, lower: string -> string, i: nat)
    requires i < |left| && JoinKey(left[i], lower) in rightMap
    ensures CommonOf(left[i], rightMap[JoinKey(left[i], lower)]) in Matches(left, rightMap, lower)
  {
    var init := left[..|left| - 1];
    if i < |init| {
      assert init[i] == left[i];
      MatchesComplete(init, rightMap, lower, i);
    }
  }

  /** `(a.leftFrequency ?? 0) + (a.rightFrequency ?? 0)` */
  function Combined(c: CommonWord): int {
    c.leftFrequency.GetOr(0) + c.rightFrequency.GetOr(0)
  }

  /** `findCommonWords(left, right)`: the matches, sorted with
      `(a, b) => bFreq - aFreq`; a permutation of the matches, so at most one
      entry per left grain. */
  function CommonWords(left: seq<Grain>, right: seq<Grain>, lower: string -> string): (r: seq<CommonWord>)
    ensures multiset(r) == multiset(Matches(left, KeyMap(right, lower), lower))
    ensures |r| <= |left|
  {
    SortBy(Matches(left, KeyMap(right, lower), lower), ByKeyDesc(Combined))
  }

  method FindCommonWords(left: seq<Grain>, right: seq<Grain>, lower: string -> string) returns (common: seq<CommonWord>)
    ensures common == CommonWords(left, right, lower)
  {
    var rightMap: map<string, Grain> := map[];
    for i := 0 to |right|
      invariant rightMap == KeyMap(right[..i], lower)
    {
      assert right[..i + 1][..i] == right[..i];
      var key := JoinKey(right[i], lower);
      rightMap := rightMap[key := right[i]];
    }
    assert right[..|right|] == right;
    common := [];
    for i := 0 to |left|
      invariant common == Matches(left[..i], rightMap, lower)
    {
      assert left[..i + 1][..i] == left[..i];
      var key := JoinKey(left[i], lower);
      if key in rightMap {
        common := common + [CommonOf(left[i], rightMap[key])];
      }
    }
    assert left[..|left|] == left;
    common := SortBy(common, ByKeyDesc(Combined));
  }

  /** The shared words come out by combined frequency, largest first, and
      words with the same combined frequency keep their left order. */
  lemma CommonWordsRanked(left: seq<Grain>, right: seq<Grain>, lower: string -> string, k: int)
    ensures KeysDescending(CommonWords(left, right, lower), Combined)
    ensures WithKey(CommonWords(left, right, lower), Combined, k) ==
            WithKey(Matches(left, KeyMap(right, lower), lower), Combined, k)
  {
    var m := Matches(left, KeyMap(right, lower), lower);
    SortByKeyDescSorted(m, Combined);
    SortByKeyDescStable(m, Combined, k);
  }
}
