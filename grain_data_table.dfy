/** The explorer's sortable grain table: the comparator over the values a
    column shows, the column/direction state its headers drive, and the
    sorted copy of the grains. */
module GrainDataTable {
  import opened Wrappers
  import opened Strings
  import opened Grains
  import opened Sorting

  datatype SortField = Word | Pos | Frequency | Tfidf | Sentiment | Categories | IsSlang

  datatype SortDirection = Asc | Desc

  /** `string | number | boolean | undefined` */
  datatype Primitive = PStr(s: string) | PNum(n: int) | PBool(b: bool) | PUndefined

  /** `String(v)` */
  function PrimitiveText(v: Primitive): string {
    match v
    case PStr(s) => s
    case PNum(n) => IntToString(n)
    case PBool(b) => if b then "true" else "false"
    case PUndefined => "undefined"
  }

  /** `v ?? ""` */
  function OrEmpty(v: Primitive): (r: Primitive)
    ensures r != PUndefined
    ensures v != PUndefined ==> r == v
  {
    if v.PUndefined? then PStr("") else v
  }

  /** `comparePrimitive(a, b, dir)`: undefined counts as "", two numbers
      compare by their difference and anything else by the locale order of
      their `String` forms; "desc" negates. */
  function ComparePrimitive(a: Primitive, b: Primitive, dir: SortDirection, localeCompare: (string, string) -> int): int {
    var aVal := OrEmpty(a);
    var bVal := OrEmpty(b);
    var result := if aVal.PNum? && bVal.PNum? then aVal.n - bVal.n
                  else localeCompare(PrimitiveText(aVal), PrimitiveText(bVal));
    if dir == Asc then result else -result
  }

  /** "desc" is exactly the negation of "asc". */
  lemma DescNegatesAsc(a: Primitive, b: Primitive, localeCompare: (string, string) -> int)
    ensures ComparePrimitive(a, b, Desc, localeCompare) == -ComparePrimitive(a, b, Asc, localeCompare)
  {
  }

  /** An absent value sorts as the empty string, never as "undefined". */
  lemma UndefinedIsEmpty(b: Primitive, dir: SortDirection, localeCompare: (string, string) -> int)
    ensures ComparePrimitive(PUndefined, b, dir, localeCompare) == ComparePrimitive(PStr(""), b, dir, localeCompare)
  {
  }

  /** Two numbers compare by difference: the smaller first ascending. */
  lemma NumbersByDifference(x: int, y: int, localeCompare: (string, string) -> int)
    ensures ComparePrimitive(PNum(x), PNum(y), Asc, localeCompare) < 0 <==> x < y
    ensures ComparePrimitive(PNum(x), PNum(y), Desc, localeCompare) < 0 <==> y < x
    ensures ComparePrimitive(PNum(x), PNum(y), Asc, localeCompare) == 0 <==> x == y
  {
  }

  /** A number against an absent value is a text comparison: the number's
      decimal form against "". */
  lemma NumberAgainstAbsent(x: int, localeCompare: (string, string) -> int)
    ensures ComparePrimitive(PNum(x), PUndefined, Asc, localeCompare) == localeCompare(IntToString(x), "")
  {
  }

  /** The value a column sorts `g` by. */
  function SortKey(g: Grain, field: SortField): Primitive {
    match field
    case Word => PStr(g.word)
    case Pos => if g.pos.Some? then PStr(g.pos.value) else PUndefined
    case Frequency => if g.frequency.Some? then PNum(g.frequency.value) else PUndefined
    case Tfidf => if g.tfidf.Some? then PNum(g.tfidf.value) else PUndefined
    case Sentiment => if g.sentiment.Some? then PStr(g.sentiment.value) else PUndefined
    case Categories => if g.categories.Some? then PStr(Join(g.categories.value, ", ")) else PUndefined
    case IsSlang => PNum(if g.isSlang == Some(true) then 1 else 0)
  }

  /** `is_slang` sorts as 1 when true and 0 otherwise; `categories` by its
      ", "-joined text. */
  lemma SlangAndCategoryKeys(g: Grain)
    ensures SortKey(g, IsSlang) == PNum(1) <==> g.isSlang == Some(true)
    ensures SortKey(g, IsSlang) == PNum(0) <==> g.isSlang != Some(true)
    ensures g.categories.Some? ==> SortKey(g, Categories) == PStr(Join(g.categories.value, ", "))
    ensures g.categories.None? ==> SortKey(g, Categories) == PUndefined
  {
  }

  /** The comparator handed to `sort` for the current column and direction. */
  function GrainOrder(field: SortField, dir: SortDirection, localeCompare: (string, string) -> int): (Grain, Grain) -> int {
    (a: Grain, b: Grain) => ComparePrimitive(SortKey(a, field), SortKey(b, field), dir, localeCompare)
  }

  /** `[...grains].sort(...)`: a sorted copy, a permutation of the grains. */
  function SortedGrains(grains: seq<Grain>, field: SortField, dir: SortDirection, localeCompare: (string, string) -> int): (r: seq<Grain>)
    ensures multiset(r) == multiset(grains)
  {
    SortBy(grains, GrainOrder(field, dir, localeCompare))
  }

  /** Sorting by slang, descending, puts every slang grain before every
      other grain. */
  lemma SlangFirst(grains: seq<Grain>, localeCompare: (string, string) -> int)
    ensures var r := SortedGrains(grains, IsSlang, Desc, localeCompare);
      forall i, j :: 0 <= i < j < |r| && r[j].isSlang == Some(true) ==> r[i].isSlang == Some(true)
  {
    var cmp := GrainOrder(IsSlang, Desc, localeCompare);
    assert TotalPreorderOn(grains, cmp);
    SortBySorted(grains, cmp);
    var r := SortedGrains(grains, IsSlang, Desc, localeCompare);
    forall i, j | 0 <= i < j < |r| && r[j].isSlang == Some(true)
      ensures r[i].isSlang == Some(true)
    {
      assert cmp(r[i], r[j]) <= 0;
    }
  }

  /** When every grain has a frequency, the default view (frequency,
      descending) lists frequencies in non-increasing order. */
  lemma FrequencyDescending(grains: seq<Grain>, localeCompare: (string, string) -> int)
    requires forall i :: 0 <= i < |grains| ==> grains[i].frequency.Some?
    ensures var r := SortedGrains(grains, Frequency, Desc, localeCompare);
      && (forall i :: 0 <= i < |r| ==> r[i].frequency.Some?)
      && (forall i, j :: 0 <= i < j < |r| ==> FrequencyOrZero(r[i]) >= FrequencyOrZero(r[j]))
  {
    var cmp := GrainOrder(Frequency, Desc, localeCompare);
    assert TotalPreorderOn(grains, cmp) by {
      forall a, b | a in grains && b in grains
        ensures cmp(a, b) == FrequencyOrZero(b) - FrequencyOrZero(a)
      {
        FrequencyOrder(a, b, localeCompare);
      }
    }
    SortBySorted(grains, cmp);
    SortByKeepsAll(grains, cmp, (g: Grain) => g.frequency.Some?);
    var r := SortedGrains(grains, Frequency, Desc, localeCompare);
    forall i, j | 0 <= i < j < |r|
      ensures FrequencyOrZero(r[i]) >= FrequencyOrZero(r[j])
    {
      assert cmp(r[i], r[j]) <= 0;
      FrequencyOrder(r[i], r[j], localeCompare);
    }
  }

  /** Between grains that both have a frequency, the frequency column's
      descending comparator is the difference of the frequencies. */
  lemma FrequencyOrder(a: Grain, b: Grain, localeCompare: (string, string) -> int)
    requires a.frequency.Some? && b.frequency.Some?
    ensures GrainOrder(Frequency, Desc, localeCompare)(a, b) == FrequencyOrZero(b) - FrequencyOrZero(a)
  {
  }

  // ---------------------------------------------------------------------
  // Column and direction

  /** The direction a newly selected column starts with: ascending for the
      word, descending for every other column. */
  function FirstDirection(field: SortField): SortDirection {
    if field == Word then Asc else Desc
  }

  function Toggle(dir: SortDirection): (r: SortDirection)
    ensures r != dir
  {
    if dir == Asc then Desc else Asc
  }

  /** The state after a header is clicked. */
  function NextSort(field: SortField, dir: SortDirection, selected: SortField): (r: (SortField, SortDirection))
    ensures r.0 == selected
    ensures selected == field ==> r.1 != dir
    ensures selected != field ==> r.1 == FirstDirection(selected)
  {
    if field == selected then (field, Toggle(dir)) else (selected, FirstDirection(selected))
  }

  /** Clicking the active column twice restores the direction. */
  lemma SelectTwiceRestores(field: SortField, dir: SortDirection)
    ensures var once := NextSort(field, dir, field);
      NextSort(once.0, once.1, field) == (field, dir)
  {
  }

  /** The sort state of one table. */
  class SortState {
    var field: SortField
    var dir: SortDirection

    /** The table opens sorted by frequency, descending. */
    constructor()
      ensures field == Frequency && dir == Desc
    {
      field := Frequency;
      dir := Desc;
    }

    /** `handleSort(selected)` */
    method HandleSort(selected: SortField)
      modifies this
      ensures (field, dir) == NextSort(old(field), old(dir), selected)
    {
      if field == selected {
        dir := if dir == Asc then Desc else Asc;
      } else {
        field := selected;
        dir := if selected == Word then Asc else Desc;
      }
    }
  }
}
