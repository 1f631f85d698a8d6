/** The WordGrain record the explorer and the comparison view work on: one
    word of a corpus with its optional annotations. Only the fields the
    modelled components read are kept; numbers are integers. */
module Grains {
  import opened Wrappers

  datatype Grain = Grain(
    word: string,
    normalized: Option<string>,
    pos: Option<string>,
    frequency: Option<int>,
    tfidf: Option<int>,
    sentiment: Option<string>,
    categories: Option<seq<string>>,
    isSlang: Option<bool>)

  /** `g.frequency ?? 0` */
  function FrequencyOrZero(g: Grain): int {
    g.frequency.GetOr(0)
  }
}
