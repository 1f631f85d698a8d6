/** The schema explorer's property search: every dotted property name a
    schema defines, the lookup of one dotted name, and the detail card
    (type, description, required flag, constraints) shown for it. */
module SchemaViewer {
  import opened Wrappers
  import opened Strings
  import opened Json
  import opened SchemaRef

  /** `prefix ? `${prefix}.${key}` : key` */
  function QualifiedName(prefix: string, key: string): (r: string)
    ensures prefix == "" ==> r == key
    ensures prefix != "" ==> StartsWith(r, prefix + ".") && r[|prefix| + 1..] == key
  {
    if prefix == "" then key else prefix + "." + key
  }

  /** The entries of `node.properties` when it is an object (or array). */
  function PropertyEntries(node: Json): (r: seq<(string, Json)>)
    ensures !ObjectLike(Member(node, "properties")) ==> r == []
  {
    var props := Member(node, "properties");
    if ObjectLike(props) then Entries(props.value) else []
  }

  /** Both lists, one after the other, when both are complete. */
  function Concat(a: Option<seq<string>>, b: Option<seq<string>>): (r: Option<seq<string>>)
    ensures r.Some? <==> a.Some? && b.Some?
    ensures r.Some? ==> r.value == a.value + b.value
  {
    if a.Some? && b.Some? then Some(a.value + b.value) else None
  }

  /** The names `collectPropertyNames(schema, root, prefix)` lists. The source
      recurses without bound (a cyclic `$ref` overflows the stack); here every
      level spends one unit of `fuel` and `None` means the fuel ran out. */
  function Names(schema: Json, root: Json, prefix: string, fuel: nat): Option<seq<string>>
    decreases fuel, 0, 0
  {
    if fuel == 0 then None
    else
      var resolved := Deref(schema, root);
      Concat(PropertyNames(PropertyEntries(resolved), root, prefix, fuel - 1),
             ItemNames(resolved, root, prefix, fuel - 1))
  }

  /** The names found under `items`, listed under the same prefix: an array
      adds no segment of its own. */
  function ItemNames(resolved: Json, root: Json, prefix: string, fuel: nat): Option<seq<string>>
    decreases fuel, 1, 0
  {
    match ItemsOf(resolved)
    case None => Some([])
    case Some(items) => Names(Deref(items, root), root, prefix, fuel)
  }

  /** The names contributed by a list of properties: each property's qualified
      name immediately followed by the names below it. */
  function PropertyNames(props: seq<(string, Json)>, root: Json, prefix: string, fuel: nat): Option<seq<string>>
    decreases fuel, 1, |props|
  {
    if props == [] then Some([])
    else
      var full := QualifiedName(prefix, props[|props| - 1].0);
      Concat(PropertyNames(props[..|props| - 1], root, prefix, fuel),
             Concat(Some([full]), Names(props[|props| - 1].1, root, full, fuel)))
  }

  /** `collectPropertyNames`: pushes each property's name and then the names
      below it, then the names found under `items`, with no index segment. */
  method CollectPropertyNames(schema: Json, root: Json, prefix: string, fuel: nat) returns (r: Option<seq<string>>)
    ensures r == Names(schema, root, prefix, fuel)
    decreases fuel, 0
  {
    if fuel == 0 {
      return None;
    }
    var resolved := ResolveNode(schema, root);
    var names := CollectFromProperties(PropertyEntries(resolved), root, prefix, fuel - 1);
    if names.None? {
      return None;
    }
    var items := ItemsOf(resolved);
    if items.Some? {
      var itemSchema := ResolveNode(items.value, root);
      var fromItems := CollectPropertyNames(itemSchema, root, prefix, fuel - 1);
      if fromItems.None? {
        return None;
      }
      return Some(names.value + fromItems.value);
    }
    assert names.value + [] == names.value;
    return names;
  }

  /** The loop of `collectPropertyNames` over `Object.entries(properties)`. */
  method CollectFromProperties(props: seq<(string, Json)>, root: Json, prefix: string, fuel: nat) returns (r: Option<seq<string>>)
    ensures r == PropertyNames(props, root, prefix, fuel)
    decreases fuel, 1
  {
    var names: seq<string> := [];
    for i := 0 to |props|
      invariant PropertyNames(props[..i], root, prefix, fuel) == Some(names)
    {
      var fullKey := QualifiedName(prefix, props[i].0);
      var below := CollectPropertyNames(props[i].1, root, fullKey, fuel);
      PropertyNamesStep(props, i, root, prefix, fuel);
      if below.None? {
        PropertyNamesPrefixFails(props, i + 1, root, prefix, fuel);
        return None;
      }
      names := names + [fullKey] + below.value;
    }
    assert props[..|props|] == props;
    return Some(names);
  }

  /** One more property extends the names of the properties before it. */
  lemma PropertyNamesStep(props: seq<(string, Json)>, i: nat, root: Json, prefix: string, fuel: nat)
    requires i < |props|
    ensures var full := QualifiedName(prefix, props[i].0);
      PropertyNames(props[..i + 1], root, prefix, fuel) ==
      match PropertyNames(props[..i], root, prefix, fuel)
      case None => None
      case Some(before) =>
        match Names(props[i].1, root, full, fuel)
        case None => None
        case Some(below) => Some(before + [full] + below)
  {
    var upTo := props[..i + 1];
    assert upTo[..i] == props[..i] && upTo[i] == props[i];
    var full := QualifiedName(prefix, props[i].0);
    if PropertyNames(props[..i], root, prefix, fuel).Some? && Names(props[i].1, root, full, fuel).Some? {
      var before := PropertyNames(props[..i], root, prefix, fuel).value;
      var below := Names(props[i].1, root, full, fuel).value;
      assert before + ([full] + below) == before + [full] + below;
    }
  }

  /** Running out of fuel on a leading run of properties runs out on all of them. */
  lemma {:induction false} PropertyNamesPrefixFails(props: seq<(string, Json)>, k: nat, root: Json, prefix: string, fuel: nat)
    requires k <= |props|
    requires PropertyNames(props[..k], root, prefix, fuel).None?
    ensures PropertyNames(props, root, prefix, fuel).None?
    decreases |props| - k
  {
    if k < |props| {
      assert props[..k + 1][..k] == props[..k];
      PropertyNamesPrefixFails(props, k + 1, root, prefix, fuel);
    } else {
      assert props[..k] == props;
    }
  }

  /** A complete list of names is the complete list under `properties`
      followed by the complete list under `items`, one fuel unit down. */
  lemma NamesParts(schema: Json, root: Json, prefix: string, fuel: nat)
    returns (named: Option<seq<string>>, itemNamed: Option<seq<string>>)
    requires Names(schema, root, prefix, fuel).Some?
    ensures fuel > 0
    ensures named == PropertyNames(PropertyEntries(Deref(schema, root)), root, prefix, fuel - 1)
    ensures itemNamed == ItemNames(Deref(schema, root), root, prefix, fuel - 1)
    ensures named.Some? && itemNamed.Some?
    ensures Names(schema, root, prefix, fuel).value == named.value + itemNamed.value
  {
    var resolved := Deref(schema, root);
    named := PropertyNames(PropertyEntries(resolved), root, prefix, fuel - 1);
    itemNamed := ItemNames(resolved, root, prefix, fuel - 1);
  }

  lemma ItemNamesUnfold(resolved: Json, root: Json, prefix: string, fuel: nat)
    requires ItemsOf(resolved).Some?
    ensures ItemNames(resolved, root, prefix, fuel) == Names(Deref(ItemsOf(resolved).value, root), root, prefix, fuel)
  {
  }

  lemma PropertyNamesUnfold(props: seq<(string, Json)>, root: Json, prefix: string, fuel: nat)
    requires props != []
    ensures var full := QualifiedName(prefix, props[|props| - 1].0);
      PropertyNames(props, root, prefix, fuel) ==
        Concat(PropertyNames(props[..|props| - 1], root, prefix, fuel),
               Concat(Some([full]), Names(props[|props| - 1].1, root, full, fuel)))
  {
  }

  lemma StartsWithExtends(s: string, p: string, q: string)
    requires StartsWith(s, p + q)
    ensures StartsWith(s, p)
  {
    assert s[..|p|] == (p + q)[..|p|];
  }

  /** Every name starts with `prefix.`. */
  predicate AllUnder(names: seq<string>, prefix: string) {
    forall i :: 0 <= i < |names| ==> StartsWith(names[i], prefix + ".")
  }

  lemma ConcatUnder(a: seq<string>, b: seq<string>, prefix: string)
    requires AllUnder(a, prefix) && AllUnder(b, prefix)
    ensures AllUnder(a + b, prefix)
  {
    forall i | 0 <= i < |a + b|
      ensures StartsWith((a + b)[i], prefix + ".")
    {
      if i >= |a| {
        assert (a + b)[i] == b[i - |a|];
      } else {
        assert (a + b)[i] == a[i];
      }
    }
  }

  /** Names under `prefix.key.` are names under `prefix.`. */
  lemma UnderParent(names: seq<string>, prefix: string, key: string)
    requires prefix != "" && AllUnder(names, QualifiedName(prefix, key))
    ensures AllUnder(names, prefix)
  {
    forall i | 0 <= i < |names|
      ensures StartsWith(names[i], prefix + ".")
    {
      assert QualifiedName(prefix, key) + "." == (prefix + ".") + (key + ".");
      StartsWithExtends(names[i], prefix + ".", key + ".");
    }
  }

  /** Below a non-empty prefix every name is `prefix.` followed by something:
      names are always qualified by the path that leads to them. */
  lemma {:induction false} NamesQualified(schema: Json, root: Json, prefix: string, fuel: nat)
    requires prefix != ""
    requires Names(schema, root, prefix, fuel).Some?
    ensures AllUnder(Names(schema, root, prefix, fuel).value, prefix)
    decreases fuel, 0, 0
  {
    var named, itemNamed := NamesParts(schema, root, prefix, fuel);
    var resolved := Deref(schema, root);
    PropertyNamesQualified(PropertyEntries(resolved), root, prefix, fuel - 1);
    var items := ItemsOf(resolved);
    if items.Some? {
      ItemNamesUnfold(resolved, root, prefix, fuel - 1);
      NamesQualified(Deref(items.value, root), root, prefix, fuel - 1);
    } else {
      assert itemNamed == Some([]);
    }
    ConcatUnder(named.value, itemNamed.value, prefix);
  }

  lemma {:induction false} PropertyNamesQualified(props: seq<(string, Json)>, root: Json, prefix: string, fuel: nat)
    requires prefix != ""
    requires PropertyNames(props, root, prefix, fuel).Some?
    ensures AllUnder(PropertyNames(props, root, prefix, fuel).value, prefix)
    decreases fuel, 1, |props|
  {
    if props != [] {
      var key := props[|props| - 1].0;
      var full := QualifiedName(prefix, key);
      var below := Names(props[|props| - 1].1, root, full, fuel);
      PropertyNamesUnfold(props, root, prefix, fuel);
      PropertyNamesQualified(props[..|props| - 1], root, prefix, fuel);
      NamesQualified(props[|props| - 1].1, root, full, fuel);
      UnderParent(below.value, prefix, key);
      assert AllUnder([full], prefix);
      ConcatUnder([full], below.value, prefix);
      ConcatUnder(PropertyNames(props[..|props| - 1], root, prefix, fuel).value, [full] + below.value, prefix);
    }
  }

  /** Every listed property contributes its own qualified name; at the root
      (empty prefix) that is the bare key. */
  lemma {:induction false} PropertyNamesListEveryKey(props: seq<(string, Json)>, root: Json, prefix: string, fuel: nat)
    requires PropertyNames(props, root, prefix, fuel).Some?
    ensures forall i :: 0 <= i < |props| ==> QualifiedName(prefix, props[i].0) in PropertyNames(props, root, prefix, fuel).value
    decreases |props|
  {
    if props != [] {
      PropertyNamesUnfold(props, root, prefix, fuel);
      PropertyNamesListEveryKey(props[..|props| - 1], root, prefix, fuel);
      var init := props[..|props| - 1];
      assert forall i :: 0 <= i < |init| ==> init[i] == props[i];
    }
  }

  /** The fuel only decides whether the list is complete: once some fuel
      gives a complete list, every larger fuel gives the same list, which
      is therefore the list the unbounded recursion builds. */
  lemma {:induction false} NamesFuelMonotone(schema: Json, root: Json, prefix: string, fuel: nat, more: nat)
    requires fuel <= more
    requires Names(schema, root, prefix, fuel).Some?
    ensures Names(schema, root, prefix, more) == Names(schema, root, prefix, fuel)
    decreases fuel, 0, 0
  {
    var resolved := Deref(schema, root);
    PropertyNamesFuelMonotone(PropertyEntries(resolved), root, prefix, fuel - 1, more - 1);
    ItemNamesFuelMonotone(resolved, root, prefix, fuel - 1, more - 1);
  }

  lemma {:induction false} ItemNamesFuelMonotone(resolved: Json, root: Json, prefix: string, fuel: nat, more: nat)
    requires fuel <= more
    requires ItemNames(resolved, root, prefix, fuel).Some?
    ensures ItemNames(resolved, root, prefix, more) == ItemNames(resolved, root, prefix, fuel)
    decreases fuel, 1, 0
  {
    match ItemsOf(resolved)
    case None =>
    case Some(items) => NamesFuelMonotone(Deref(items, root), root, prefix, fuel, more);
  }

  lemma {:induction false} PropertyNamesFuelMonotone(props: seq<(string, Json)>, root: Json, prefix: string, fuel: nat, more: nat)
    requires fuel <= more
    requires PropertyNames(props, root, prefix, fuel).Some?
    ensures PropertyNames(props, root, prefix, more) == PropertyNames(props, root, prefix, fuel)
    decreases fuel, 1, |props|
  {
    if props != [] {
      var full := QualifiedName(prefix, props[|props| - 1].0);
      PropertyNamesFuelMonotone(props[..|props| - 1], root, prefix, fuel, more);
      NamesFuelMonotone(props[|props| - 1].1, root, full, fuel, more);
    }
  }

  // ---------------------------------------------------------------------
  // Property detail

  /** The captions of the detail card's constraint rows. */
  datatype Caption =
    | AllowedValues | MinLength | MaxLength | Minimum | Maximum
    | Pattern | Format | Default | Items
  {
    /** The text the card prints for the caption. */
    function Text(): string {
      match this
      case AllowedValues => "Allowed values"
      case MinLength => "Min length"
      case MaxLength => "Max length"
      case Minimum => "Minimum"
      case Maximum => "Maximum"
      case Pattern => "Pattern"
      case Format => "Format"
      case Default => "Default"
      case Items => "Items"
    }

    /** The caption's position on the card. */
    function Rank(): nat {
      match this
      case AllowedValues => 0
      case MinLength => 1
      case MaxLength => 2
      case Minimum => 3
      case Maximum => 4
      case Pattern => 5
      case Format => 6
      case Default => 7
      case Items => 8
    }
  }

  datatype Constraint = Constraint(caption: Caption, value: Json)

  datatype Detail = Detail(name: string, typ: Json, description: Json, required: bool, constraints: seq<Constraint>)

  /** The captions in the order the detail card lists them. */
  const Labels: seq<Caption> :=
    [AllowedValues, MinLength, MaxLength, Minimum, Maximum, Pattern, Format, Default, Items]

  lemma LabelsRanked()
    ensures forall c: Caption :: 0 <= c.Rank() < |Labels| && Labels[c.Rank()] == c
    ensures forall j :: 0 <= j < |Labels| ==> Labels[j].Rank() == j
  {
  }

  /** What the card shows for one caption, when it shows the caption at all:
      each keyword appears only when present with the type the card expects. */
  function ConstraintFor(resolved: Json, caption: Caption, stringify: Json -> string): Option<Json> {
    match caption
    case AllowedValues => EnumText(Member(resolved, "enum"))
    case MinLength => NumberText(Member(resolved, "minLength"))
    case MaxLength => NumberText(Member(resolved, "maxLength"))
    case Minimum => NumberText(Member(resolved, "minimum"))
    case Maximum => NumberText(Member(resolved, "maximum"))
    case Pattern => StringValue(Member(resolved, "pattern"))
    case Format => StringValue(Member(resolved, "format"))
    case Default => DefaultText(Member(resolved, "default"), stringify)
    case Items => ItemsText(ItemsOf(resolved))
  }

  /** An `enum` array, its values joined by ", ". */
  function EnumText(o: Option<Json>): Option<Json> {
    match o
    case Some(JArr(values)) => Some(JStr(JoinValues(values, ", ")))
    case _ => None
  }

  /** Any present `default`, as `JSON.stringify` writes it. */
  function DefaultText(o: Option<Json>, stringify: Json -> string): Option<Json> {
    match o
    case Some(v) => Some(JStr(stringify(v)))
    case None => None
  }

  /** The item type: the last segment of its `$ref`, else its `type` when
      that is truthy. */
  function ItemsText(o: Option<Json>): Option<Json> {
    match o
    case None => None
    case Some(items) =>
      match RefOf(items)
      case Some(ref) => Some(JStr(LastSegment(ref)))
      case None => if Present(Member(items, "type")) then Member(items, "type") else None
  }

  function NumberText(o: Option<Json>): Option<Json> {
    match o
    case Some(JNum(n)) => Some(JStr(IntToString(n)))
    case _ => None
  }

  function StringValue(o: Option<Json>): Option<Json> {
    match o
    case Some(JStr(s)) => Some(JStr(s))
    case _ => None
  }

  /** `ref.split("/").pop()`: the text after the last `/`. */
  function LastSegment(ref: string): (r: string)
    ensures '/' !in r
  {
    var parts := Split(ref, '/');
    SplitPiecesFree(ref, '/');
    parts[|parts| - 1]
  }

  predicate HasLabel(cs: seq<Constraint>, caption: Caption) {
    exists i :: 0 <= i < |cs| && cs[i].caption == caption
  }

  /** Captions appear in the card's fixed order, hence each at most once. */
  predicate InLabelOrder(cs: seq<Constraint>) {
    forall i, j :: 0 <= i < j < |cs| ==> cs[i].caption.Rank() < cs[j].caption.Rank()
  }

  /** The row for one caption showing `v`: none when nothing is shown. */
  function RowOf(caption: Caption, v: Option<Json>): seq<Constraint> {
    if v.Some? then [Constraint(caption, v.value)] else []
  }

  /** The row the card pushes for one caption: none when the keyword does
      not apply. */
  function Row(resolved: Json, caption: Caption, stringify: Json -> string): seq<Constraint> {
    RowOf(caption, ConstraintFor(resolved, caption, stringify))
  }

  /** The rows for the first `k` captions, in card order, where `shown`
      says what each caption shows. */
  function Collected(shown: Caption -> Option<Json>, k: nat): seq<Constraint>
    requires k <= |Labels|
  {
    if k == 0 then [] else Collected(shown, k - 1) + RowOf(Labels[k - 1], shown(Labels[k - 1]))
  }

  /** The nine pushes, one per caption in card order, list exactly the
      captions whose keyword applies, in card order, each with the value
      `ConstraintFor` gives. */
  lemma CollectedAll(resolved: Json, stringify: Json -> string, cs: seq<Constraint>)
    requires cs == [] + Row(resolved, AllowedValues, stringify) + Row(resolved, MinLength, stringify)
                      + Row(resolved, MaxLength, stringify) + Row(resolved, Minimum, stringify)
                      + Row(resolved, Maximum, stringify) + Row(resolved, Pattern, stringify)
                      + Row(resolved, Format, stringify) + Row(resolved, Default, stringify)
                      + Row(resolved, Items, stringify)
    ensures InLabelOrder(cs)
    ensures forall c: Caption :: HasLabel(cs, c) <==> ConstraintFor(resolved, c, stringify).Some?
    ensures forall i :: 0 <= i < |cs| ==> ConstraintFor(resolved, cs[i].caption, stringify) == Some(cs[i].value)
  {
    var shown := (c: Caption) => ConstraintFor(resolved, c, stringify);
    var r := (c: Caption) => RowOf(c, shown(c));
    assert r(AllowedValues) == Row(resolved, AllowedValues, stringify);
    assert r(MinLength) == Row(resolved, MinLength, stringify);
    assert r(MaxLength) == Row(resolved, MaxLength, stringify);
    assert r(Minimum) == Row(resolved, Minimum, stringify);
    assert r(Maximum) == Row(resolved, Maximum, stringify);
    assert r(Pattern) == Row(resolved, Pattern, stringify);
    assert r(Format) == Row(resolved, Format, stringify);
    assert r(Default) == Row(resolved, Default, stringify);
    assert r(Items) == Row(resolved, Items, stringify);
    CollectedNine(shown);
    CollectedInOrder(shown, 9);
    LabelsRanked();
  }

  /** The first five captions, pushed one after the other in card order. */
  lemma CollectedFive(shown: Caption -> Option<Json>)
    ensures Collected(shown, 5) ==
      [] + RowOf(AllowedValues, shown(AllowedValues)) + RowOf(MinLength, shown(MinLength))
         + RowOf(MaxLength, shown(MaxLength)) + RowOf(Minimum, shown(Minimum))
         + RowOf(Maximum, shown(Maximum))
  {
    assert Collected(shown, 1) == [] + RowOf(AllowedValues, shown(AllowedValues));
    assert Collected(shown, 2) == Collected(shown, 1) + RowOf(MinLength, shown(MinLength));
    assert Collected(shown, 3) == Collected(shown, 2) + RowOf(MaxLength, shown(MaxLength));
    assert Collected(shown, 4) == Collected(shown, 3) + RowOf(Minimum, shown(Minimum));
  }

  /** All nine captions, pushed one after the other in card order. */
  lemma CollectedNine(shown: Caption -> Option<Json>)
    ensures Collected(shown, 9) ==
      [] + RowOf(AllowedValues, shown(AllowedValues)) + RowOf(MinLength, shown(MinLength))
         + RowOf(MaxLength, shown(MaxLength)) + RowOf(Minimum, shown(Minimum))
         + RowOf(Maximum, shown(Maximum)) + RowOf(Pattern, shown(Pattern))
         + RowOf(Format, shown(Format)) + RowOf(Default, shown(Default))
         + RowOf(Items, shown(Items))
  {
    CollectedFive(shown);
    assert Collected(shown, 6) == Collected(shown, 5) + RowOf(Pattern, shown(Pattern));
    assert Collected(shown, 7) == Collected(shown, 6) + RowOf(Format, shown(Format));
    assert Collected(shown, 8) == Collected(shown, 7) + RowOf(Default, shown(Default));
  }

  /** Every row is below rank `k`. */
  predicate RanksBelow(cs: seq<Constraint>, k: nat) {
    forall i :: 0 <= i < |cs| ==> cs[i].caption.Rank() < k
  }

  /** Every row carries what its caption shows. */
  predicate RowsShown(cs: seq<Constraint>, shown: Caption -> Option<Json>) {
    forall i :: 0 <= i < |cs| ==> shown(cs[i].caption) == Some(cs[i].value)
  }

  /** The rows name exactly the captions below rank `k` that show something. */
  predicate Covers(cs: seq<Constraint>, shown: Caption -> Option<Json>, k: nat) {
    forall c: Caption :: HasLabel(cs, c) <==> c.Rank() < k && shown(c).Some?
  }

  /** The collected rows list, in card order, exactly the captions among
      the first `k` that show something, with what they show. */
  lemma {:induction false} CollectedInOrder(shown: Caption -> Option<Json>, k: nat)
    requires k <= |Labels|
    ensures InLabelOrder(Collected(shown, k))
    ensures RanksBelow(Collected(shown, k), k)
    ensures RowsShown(Collected(shown, k), shown)
    ensures Covers(Collected(shown, k), shown, k)
  {
    if k > 0 {
      CollectedInOrder(shown, k - 1);
      var before := Collected(shown, k - 1);
      var last := Labels[k - 1];
      LabelsRanked();
      assert last.Rank() == k - 1;
      assert Collected(shown, k) == before + RowOf(last, shown(last));
      AppendRow(before, last, shown, k);
    }
  }

  /** Appending the row of the caption ranked `k - 1` to rows for the
      captions below it. */
  lemma AppendRow(before: seq<Constraint>, last: Caption, shown: Caption -> Option<Json>, k: nat)
    requires k > 0 && last.Rank() == k - 1
    requires InLabelOrder(before) && RanksBelow(before, k - 1)
    requires RowsShown(before, shown) && Covers(before, shown, k - 1)
    ensures var cs := before + RowOf(last, shown(last));
      InLabelOrder(cs) && RanksBelow(cs, k) && RowsShown(cs, shown) && Covers(cs, shown, k)
  {
    var row := RowOf(last, shown(last));
    var cs := before + row;
    assert forall i :: 0 <= i < |before| ==> cs[i] == before[i];
    assert row != [] ==> cs[|before|] == row[0] && row[0] == Constraint(last, shown(last).value);
    assert |cs| == |before| + |row| && |row| <= 1;
    AppendCovers(before, last, shown, k);
  }

  lemma AppendCovers(before: seq<Constraint>, last: Caption, shown: Caption -> Option<Json>, k: nat)
    requires k > 0 && last.Rank() == k - 1
    requires RanksBelow(before, k - 1) && Covers(before, shown, k - 1)
    ensures Covers(before + RowOf(last, shown(last)), shown, k)
  {
    var row := RowOf(last, shown(last));
    var cs := before + row;
    forall c: Caption
      ensures HasLabel(cs, c) <==> c.Rank() < k && shown(c).Some?
    {
      if HasLabel(cs, c) {
        var i :| 0 <= i < |cs| && cs[i].caption == c;
        if i < |before| {
          assert before[i] == cs[i];
          assert HasLabel(before, c);
        } else {
          assert c == last;
        }
      }
      if HasLabel(before, c) {
        var i :| 0 <= i < |before| && before[i].caption == c;
        assert cs[i] == before[i];
      }
      if c.Rank() == k - 1 && shown(c).Some? {
        RankInjective(c, last);
        assert cs[|before|] == row[0];
      }
    }
  }

  lemma RankInjective(a: Caption, b: Caption)
    requires a.Rank() == b.Rank()
    ensures a == b
  {
  }

  /** `extractDetail(name, schema, root, parentRequired)`. */
  method ExtractDetail(name: string, schema: Json, root: Json, parentRequired: seq<string>, stringify: Json -> string)
    returns (d: Detail)
    ensures d.name == name
    ensures d.typ == Coalesce(Member(Deref(schema, root), "type"),
                              if Present(Member(Deref(schema, root), "enum")) then JStr("enum") else JStr("object"))
    ensures d.description == Coalesce(Member(Deref(schema, root), "description"), JStr(""))
    ensures d.required <==> name in parentRequired
    ensures InLabelOrder(d.constraints)
    ensures forall c: Caption ::
              HasLabel(d.constraints, c) <==> ConstraintFor(Deref(schema, root), c, stringify).Some?
    ensures forall i :: 0 <= i < |d.constraints| ==>
              ConstraintFor(Deref(schema, root), d.constraints[i].caption, stringify) == Some(d.constraints[i].value)
  {
    var resolved := ResolveNode(schema, root);
    var typ := Coalesce(Member(resolved, "type"),
                        if Present(Member(resolved, "enum")) then JStr("enum") else JStr("object"));
    var description := Coalesce(Member(resolved, "description"), JStr(""));
    var required := name in parentRequired;

    var constraints: seq<Constraint> := [];
    constraints := constraints + Row(resolved, AllowedValues, stringify);
    constraints := constraints + Row(resolved, MinLength, stringify);
    constraints := constraints + Row(resolved, MaxLength, stringify);
    constraints := constraints + Row(resolved, Minimum, stringify);
    constraints := constraints + Row(resolved, Maximum, stringify);
    constraints := constraints + Row(resolved, Pattern, stringify);
    constraints := constraints + Row(resolved, Format, stringify);
    constraints := constraints + Row(resolved, Default, stringify);
    constraints := constraints + Row(resolved, Items, stringify);
    CollectedAll(resolved, stringify, constraints);
    d := Detail(name, typ, description, required, constraints);
  }

  // ---------------------------------------------------------------------
  // Looking up a dotted name

  /** What a successful lookup returns: the property's schema and the
      `required` list of the node that owns it. */
  datatype Found = Found(propSchema: Json, parentRequired: seq<string>)

  /** `node.properties[part]` when `properties` is an object (or array) and
      the entry is truthy. */
  function PropertyNamed(node: Json, part: string): (r: Option<Json>)
    ensures r.Some? ==> ObjectLike(Member(node, "properties")) && Member(Member(node, "properties").value, part) == r
    ensures r.Some? ==> Truthy(r.value)
  {
    var props := Member(node, "properties");
    if ObjectLike(props) && Present(Member(props.value, part)) then Member(props.value, part) else None
  }

  /** One pass of the lookup loop: the segment is looked up among the
      resolved node's own properties first and then among the properties of
      its resolved `items`; the owner's `required` list comes along. */
  function FindStep(current: Json, part: string, root: Json): Option<Found>
  {
    var resolved := Deref(current, root);
    match PropertyNamed(resolved, part)
    case Some(child) => Some(Found(child, RequiredNames(Member(resolved, "required"))))
    case None =>
      match ItemsOf(resolved)
      case None => None
      case Some(items) =>
        var target := Deref(items, root);
        match PropertyNamed(target, part)
        case None => None
        case Some(child) => Some(Found(child, RequiredNames(Member(target, "required"))))
  }

  /** The lookup of a list of segments, starting from what the previous
      segment found (at first: the schema itself and no `required` list). */
  function FindSteps(parts: seq<string>, found: Found, root: Json): Option<Found>
    decreases |parts|
  {
    if parts == [] then Some(found)
    else
      match FindStep(found.propSchema, parts[0], root)
      case None => None
      case Some(next) => FindSteps(parts[1..], next, root)
  }

  /** `findPropertyInSchema(path, schema, root)`: the loop over the dotted
      segments, reassigning `current` and `parentRequired`, giving up with
      `null` at the first segment found neither among the properties nor
      among the items' properties. */
  method FindPropertyInSchema(path: string, schema: Json, root: Json) returns (r: Option<Found>)
    ensures r == FindSteps(Split(path, '.'), Found(schema, []), root)
  {
    var parts := Split(path, '.');
    var current := schema;
    var parentRequired: seq<string> := [];
    for i := 0 to |parts|
      invariant FindSteps(parts, Found(schema, []), root)
             == FindSteps(parts[i..], Found(current, parentRequired), root)
    {
      assert parts[i..][1..] == parts[i + 1..];
      var resolved := ResolveNode(current, root);
      parentRequired := RequiredNames(Member(resolved, "required"));
      var props := Member(resolved, "properties");
      if ObjectLike(props) && Present(Member(props.value, parts[i])) {
        current := Member(props.value, parts[i]).value;
        continue;
      }
      var items := ItemsOf(resolved);
      if items.Some? {
        var target := ResolveNode(items.value, root);
        var itemRequired := RequiredNames(Member(target, "required"));
        var itemProps := Member(target, "properties");
        if ObjectLike(itemProps) && Present(Member(itemProps.value, parts[i])) {
          parentRequired := itemRequired;
          current := Member(itemProps.value, parts[i]).value;
          continue;
        }
      }
      return None;
    }
    assert parts[|parts|..] == [];
    return Some(Found(current, parentRequired));
  }

  /** Looking up `p + q` is looking up `p` and then `q` from what `p` found. */
  lemma {:induction false} FindStepsAppend(p: seq<string>, q: seq<string>, found: Found, root: Json)
    ensures FindSteps(p + q, found, root) ==
      match FindSteps(p, found, root)
      case None => None
      case Some(mid) => FindSteps(q, mid, root)
    decreases |p|
  {
    if p == [] {
      assert p + q == q;
    } else {
      assert (p + q)[1..] == p[1..] + q;
      match FindStep(found.propSchema, p[0], root)
      case None =>
      case Some(next) =>
        FindStepsAppend(p[1..], q, next, root);
    }
  }

  /** On success the result is what the last segment's step produced from
      the node the earlier segments led to: its schema, and the `required`
      list of the node that owns the last segment. */
  lemma LastSegmentOwns(parts: seq<string>, found: Found, root: Json)
    requires parts != []
    requires FindSteps(parts, found, root).Some?
    ensures var init := FindSteps(parts[..|parts| - 1], found, root);
      init.Some? && FindStep(init.value.propSchema, parts[|parts| - 1], root) == FindSteps(parts, found, root)
  {
    var n := |parts|;
    assert parts == parts[..n - 1] + [parts[n - 1]];
    FindStepsAppend(parts[..n - 1], [parts[n - 1]], found, root);
    var init := FindSteps(parts[..n - 1], found, root);
    if init.Some? {
      assert [parts[n - 1]][1..] == [];
    }
  }

  /** Segment `k` fails: the segments before it succeed and its own step,
      from where they led, finds nothing. */
  ghost predicate StepFailsAt(parts: seq<string>, found: Found, root: Json, k: nat)
    requires k < |parts|
  {
    var before := FindSteps(parts[..k], found, root);
    before.Some? && FindStep(before.value.propSchema, parts[k], root).None?
  }

  /** The lookup gives up exactly when some segment, reached from the node
      the segments before it led to, is found in neither place. */
  lemma {:induction false} FindStepsFailsIffStepFails(parts: seq<string>, found: Found, root: Json)
    ensures FindSteps(parts, found, root).None? <==>
      exists k: nat :: k < |parts| && StepFailsAt(parts, found, root, k)
    decreases |parts|
  {
    if parts != [] {
      assert parts[..0] == [];
      match FindStep(found.propSchema, parts[0], root)
      case None =>
        assert StepFailsAt(parts, found, root, 0);
      case Some(next) =>
        var rest := parts[1..];
        FindStepsFailsIffStepFails(rest, next, root);
        forall k: nat | 0 < k < |parts|
          ensures StepFailsAt(parts, found, root, k) <==> StepFailsAt(rest, next, root, k - 1)
        {
          assert parts[..k] == [parts[0]] + rest[..k - 1];
          assert parts[k] == rest[k - 1];
          FindStepsAppend([parts[0]], rest[..k - 1], found, root);
          assert [parts[0]][1..] == [];
        }
        assert !StepFailsAt(parts, found, root, 0);
        if FindSteps(rest, next, root).None? {
          var k: nat :| k < |rest| && StepFailsAt(rest, next, root, k);
          assert StepFailsAt(parts, found, root, k + 1);
        }
    }
  }

  /** A top-level key without a dot, whose schema is truthy, is found with
      the `required` list of the node that holds it. */
  lemma FindsTopLevelProperty(schema: Json, root: Json, key: string, child: Json)
    requires '.' !in key
    requires PropertyNamed(Deref(schema, root), key) == Some(child)
    ensures FindSteps(Split(key, '.'), Found(schema, []), root)
         == Some(Found(child, RequiredNames(Member(Deref(schema, root), "required"))))
  {
    SplitNoSep(key, '.');
  }

  /** Extending a found path by one more dot-free key is one more step from
      what the path found. */
  lemma FindsNestedProperty(path: string, key: string, schema: Json, root: Json)
    requires '.' !in key
    ensures FindSteps(Split(path + "." + key, '.'), Found(schema, []), root) ==
      match FindSteps(Split(path, '.'), Found(schema, []), root)
      case None => None
      case Some(parent) => FindStep(parent.propSchema, key, root)
  {
    SplitAtSep(path, key, '.');
    SplitNoSep(key, '.');
    FindStepsAppend(Split(path, '.'), [key], Found(schema, []), root);
    assert [key][1..] == [];
  }

  /** `handlePropertyClick(propPath)`: looks the clicked path up from the
      root and, when it is found, builds the detail card, named after the
      path's last segment. `None` leaves the current selection unchanged. */
  method SelectProperty(path: string, schema: Json, stringify: Json -> string) returns (r: Option<Detail>)
    ensures schema.JNull? ==> r.None?
    ensures !schema.JNull? ==> (r.Some? <==> FindSteps(Split(path, '.'), Found(schema, []), schema).Some?)
    ensures r.Some? ==>
      var parts := Split(path, '.');
      var found := FindSteps(parts, Found(schema, []), schema).value;
      && r.value.name == parts[|parts| - 1]
      && (r.value.required <==> parts[|parts| - 1] in found.parentRequired)
      && r.value.description == Coalesce(Member(Deref(found.propSchema, schema), "description"), JStr(""))
    ensures r.Some? ==>
      var resolved := Deref(FindSteps(Split(path, '.'), Found(schema, []), schema).value.propSchema, schema);
      && r.value.typ == Coalesce(Member(resolved, "type"),
                                 if Present(Member(resolved, "enum")) then JStr("enum") else JStr("object"))
      && InLabelOrder(r.value.constraints)
      && (forall c: Caption :: HasLabel(r.value.constraints, c) <==> ConstraintFor(resolved, c, stringify).Some?)
      && (forall i :: 0 <= i < |r.value.constraints| ==>
            ConstraintFor(resolved, r.value.constraints[i].caption, stringify) == Some(r.value.constraints[i].value))
  {
    if schema.JNull? {
      return None;
    }
    var result := FindPropertyInSchema(path, schema, schema);
    if result.None? {
      return None;
    }
    var parts := Split(path, '.');
    var name := parts[|parts| - 1];
    var detail := ExtractDetail(name, result.value.propSchema, schema, result.value.parentRequired, stringify);
    return Some(detail);
  }
}
