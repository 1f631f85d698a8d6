/** The playground's structural diff view: the shapes of the deltas that the
    diff library produces, the order in which a delta node tests them, how
    values are printed and shortened, and the identity used to match array
    elements. The diff computation itself belongs to the library and is not
    part of this model; a delta is a JSON value, or `None` for `undefined`. */
module DiffDisplay {
  import opened Wrappers
  import opened Strings
  import opened Json

  // ---------------------------------------------------------------------
  // Delta shapes

  /** `[newValue]` */
  predicate IsAdded(d: Option<Json>) {
    d.Some? && d.value.JArr? && |d.value.items| == 1
  }

  /** `[oldValue, newValue]` */
  predicate IsModified(d: Option<Json>) {
    d.Some? && d.value.JArr? && |d.value.items| == 2
  }

  /** `[oldValue, 0, 0]` */
  predicate IsDeleted(d: Option<Json>) {
    d.Some? && d.value.JArr? && |d.value.items| == 3 &&
    d.value.items[1] == JNum(0) && d.value.items[2] == JNum(0)
  }

  /** `["", newIndex, 3]` */
  predicate IsMoved(d: Option<Json>) {
    d.Some? && d.value.JArr? && |d.value.items| == 3 && d.value.items[2] == JNum(3)
  }

  /** A non-array object whose `_t` is "a". */
  predicate IsArrayDelta(d: Option<Json>) {
    d.Some? && d.value.JObj? && Member(d.value, "_t") == Some(JStr("a"))
  }

  /** A non-array object with no `_t` key at all. */
  predicate IsObjectDelta(d: Option<Json>) {
    d.Some? && d.value.JObj? && Member(d.value, "_t").None?
  }

  /** The six shapes exclude one another: deleted and moved differ in their
      third element, array and object deltas in the presence of `_t`. */
  lemma ShapesDisjoint(d: Option<Json>)
    ensures !(IsDeleted(d) && IsMoved(d))
    ensures !(IsArrayDelta(d) && IsObjectDelta(d))
    ensures IsAdded(d) ==> !IsModified(d) && !IsDeleted(d) && !IsMoved(d) && !IsArrayDelta(d) && !IsObjectDelta(d)
    ensures IsModified(d) ==> !IsDeleted(d) && !IsMoved(d) && !IsArrayDelta(d) && !IsObjectDelta(d)
    ensures IsDeleted(d) || IsMoved(d) ==> !IsArrayDelta(d) && !IsObjectDelta(d)
  {
  }

  datatype Kind = Added | Deleted | Modified | Moved | ArrayChanges | ObjectChanges | NotRendered

  /** `DeltaNode`'s dispatch: `undefined` first, then added, deleted,
      modified, moved, array, object; any other shape renders nothing. */
  function Classify(d: Option<Json>): Kind {
    if d.None? then NotRendered
    else if IsAdded(d) then Added
    else if IsDeleted(d) then Deleted
    else if IsModified(d) then Modified
    else if IsMoved(d) then Moved
    else if IsArrayDelta(d) then ArrayChanges
    else if IsObjectDelta(d) then ObjectChanges
    else NotRendered
  }

  /** Each kind is chosen exactly when its shape test holds, so the order of
      the tests never decides anything; everything else is not rendered. */
  lemma ClassifyExact(d: Option<Json>)
    ensures Classify(d) == Added <==> IsAdded(d)
    ensures Classify(d) == Deleted <==> IsDeleted(d)
    ensures Classify(d) == Modified <==> IsModified(d)
    ensures Classify(d) == Moved <==> IsMoved(d)
    ensures Classify(d) == ArrayChanges <==> IsArrayDelta(d)
    ensures Classify(d) == ObjectChanges <==> IsObjectDelta(d)
    ensures Classify(d) == NotRendered <==>
      !IsAdded(d) && !IsDeleted(d) && !IsModified(d) && !IsMoved(d) && !IsArrayDelta(d) && !IsObjectDelta(d)
  {
    ShapesDisjoint(d);
  }

  /** A three-element delta ending in 2 (a text diff) and an object whose
      `_t` is not "a" are not rendered. */
  lemma UnhandledShapes(a: Json, b: Json, fields: seq<(string, Json)>, t: Json)
    requires Lookup(fields, "_t") == Some(t) && t != JStr("a")
    ensures Classify(Some(JArr([a, b, JNum(2)]))) == NotRendered
    ensures Classify(Some(JObj(fields))) == NotRendered
  {
  }

  // ---------------------------------------------------------------------
  // Printing values

  /** `formatValue(value)`; objects and arrays go through
      `JSON.stringify(value, null, 2)`, given here as `pretty`. Strings are
      quoted without escaping. */
  function FormatValue(value: Option<Json>, pretty: Json -> string): string {
    match value
    case None => "undefined"
    case Some(JNull) => "null"
    case Some(JStr(s)) => "\"" + s + "\""
    case Some(JArr(_)) => pretty(value.value)
    case Some(JObj(_)) => pretty(value.value)
    case Some(v) => ToJsString(v)
  }

  /** `str.length > maxLen ? str.slice(0, maxLen) + "..." : str` */
  function Shorten(str: string, maxLen: nat): string {
    if |str| > maxLen then str[..maxLen] + "..." else str
  }

  /** The `maxLen` default of `truncateValue`. */
  const DefaultMaxLen: nat := 80

  /** `truncateValue(value, maxLen)` */
  function TruncateValue(value: Option<Json>, maxLen: nat, pretty: Json -> string): string {
    Shorten(FormatValue(value, pretty), maxLen)
  }

  /** A short enough text is shown whole; a longer one is cut to its first
      `maxLen` characters followed by "...": never longer than `maxLen + 3`,
      and always a prefix of the text before the dots. */
  lemma ShortenBounds(str: string, maxLen: nat)
    ensures |str| <= maxLen ==> Shorten(str, maxLen) == str
    ensures |str| > maxLen ==> |Shorten(str, maxLen)| == maxLen + 3
    ensures |Shorten(str, maxLen)| <= maxLen + 3
    ensures var r := Shorten(str, maxLen);
      |str| > maxLen ==> r[..maxLen] == str[..maxLen] && r[maxLen..] == "..."
  {
  }

  /** Shortening twice is shortening once. */
  lemma ShortenIdempotent(str: string, maxLen: nat)
    ensures Shorten(Shorten(str, maxLen), maxLen) == Shorten(str, maxLen)
  {
    if |str| > maxLen {
      var r := str[..maxLen] + "...";
      assert r[..maxLen] == str[..maxLen];
    }
  }

  /** Strings print quoted, scalars as `String` prints them. */
  lemma FormatScalars(s: string, n: int, b: bool, pretty: Json -> string)
    ensures FormatValue(Some(JStr(s)), pretty) == "\"" + s + "\""
    ensures FormatValue(Some(JNum(n)), pretty) == IntToString(n)
    ensures FormatValue(Some(JBool(b)), pretty) == (if b then "true" else "false")
    ensures FormatValue(Some(JNull), pretty) != FormatValue(None, pretty)
  {
  }

  // ---------------------------------------------------------------------
  // Rendering

  /** `key.startsWith("_") ? `[${key.slice(1)}]` : `[${key}]`` */
  function DisplayKey(key: string): string {
    if StartsWith(key, "_") then "[" + key[1..] + "]" else "[" + key + "]"
  }

  /** The removal entry `_k` and the insertion entry `k` of the same index
      are shown under the same label `[k]`. */
  lemma RemovedAndInsertedShareLabel(k: string)
    requires !StartsWith(k, "_")
    ensures DisplayKey("_" + k) == DisplayKey(k) == "[" + k + "]"
  {
    assert StartsWith("_" + k, "_");
    assert ("_" + k)[1..] == k;
  }

  /** One rendered line of the diff. */
  datatype Line =
    | AddedLine(name: string, value: string, depth: nat)
    | DeletedLine(name: string, value: string, depth: nat)
    | ModifiedLine(name: string, before: string, after: string, depth: nat)
    | MovedLine(name: string, toIndex: Json, depth: nat)
    | Heading(name: string, isArray: bool, depth: nat)

  function Flatten(groups: seq<seq<Line>>): seq<Line> {
    if groups == [] then [] else groups[0] + Flatten(groups[1..])
  }

  /** The entries of an array delta that are shown: every entry but `_t`. */
  function ShownEntries(fields: seq<(string, Json)>): (r: seq<(string, Json)>)
    ensures forall e :: e in r <==> e in fields && e.0 != "_t"
  {
    if fields == [] then []
    else
      var rest := ShownEntries(fields[1..]);
      assert forall e :: e in fields <==> e == fields[0] || e in fields[1..];
      if fields[0].0 == "_t" then rest else [fields[0]] + rest
  }

  /** The filter keeps order and multiplicity: the shown entries of `a + b`
      are those of `a` followed by those of `b`. */
  lemma {:induction false} ShownEntriesAppend(a: seq<(string, Json)>, b: seq<(string, Json)>)
    ensures ShownEntries(a + b) == ShownEntries(a) + ShownEntries(b)
    decreases |a|
  {
    if a == [] {
      assert a + b == b;
    } else {
      assert (a + b)[0] == a[0] && (a + b)[1..] == a[1..] + b;
      ShownEntriesAppend(a[1..], b);
    }
  }

  /** A single entry is shown, once, exactly when its key is not `_t`. */
  lemma ShownEntriesOne(e: (string, Json))
    ensures ShownEntries([e]) == if e.0 == "_t" then [] else [e]
  {
    assert [e][1..] == [];
  }

  /** `DeltaNode({name, delta, depth})` as the lines it renders. The children
      of an array or object delta are always rendered at depth 1. */
  function RenderNode(name: string, delta: Option<Json>, depth: nat, pretty: Json -> string): seq<Line>
    decreases if delta.Some? then delta.value else JNull, 1
  {
    match Classify(delta)
    case NotRendered => []
    case Added => [AddedLine(name, TruncateValue(Some(delta.value.items[0]), DefaultMaxLen, pretty), depth)]
    case Deleted => [DeletedLine(name, TruncateValue(Some(delta.value.items[0]), DefaultMaxLen, pretty), depth)]
    case Modified =>
      [ModifiedLine(name, TruncateValue(Some(delta.value.items[0]), DefaultMaxLen, pretty),
                    TruncateValue(Some(delta.value.items[1]), DefaultMaxLen, pretty), depth)]
    case Moved => [MovedLine(name, delta.value.items[1], depth)]
    case ArrayChanges =>
      [Heading(name, true, depth)] + RenderChildren(delta.value, ShownEntries(delta.value.fields), true, pretty)
    case ObjectChanges =>
      [Heading(name, false, depth)] + RenderChildren(delta.value, delta.value.fields, false, pretty)
  }

  /** The children of `parent`, one `DeltaNode` per entry at depth 1, named
      `[k]` under an array delta and by their key under an object delta. */
  function RenderChildren(parent: Json, entries: seq<(string, Json)>, isArray: bool, pretty: Json -> string): seq<Line>
    requires parent.JObj?
    requires forall e :: e in entries ==> e in parent.fields
    decreases parent, 0
  {
    Flatten(seq(|entries|, i requires 0 <= i < |entries| =>
      assert entries[i] in parent.fields;
      RenderNode(if isArray then DisplayKey(entries[i].0) else entries[i].0, Some(entries[i].1), 1, pretty)))
  }

  /** Every line of a node is at the node's own depth (its heading or its
      single line) or at depth 1 (everything below it). */
  lemma {:induction false} RenderDepths(name: string, delta: Option<Json>, depth: nat, pretty: Json -> string)
    ensures var lines := RenderNode(name, delta, depth, pretty);
      forall i :: 0 <= i < |lines| ==> lines[i].depth == (if i == 0 then depth else 1)
    decreases if delta.Some? then delta.value else JNull, 1
  {
    var lines := RenderNode(name, delta, depth, pretty);
    match Classify(delta)
    case ArrayChanges =>
      var children := RenderChildren(delta.value, ShownEntries(delta.value.fields), true, pretty);
      ChildrenDepths(delta.value, ShownEntries(delta.value.fields), true, pretty);
      assert lines == [Heading(name, true, depth)] + children;
      forall i | 0 <= i < |lines|
        ensures lines[i].depth == (if i == 0 then depth else 1)
      {
        if i > 0 {
          assert lines[i] == children[i - 1];
          assert children[i - 1].depth == 1;
        } else {
          assert lines[0] == Heading(name, true, depth);
        }
      }
    case ObjectChanges =>
      var children := RenderChildren(delta.value, delta.value.fields, false, pretty);
      ChildrenDepths(delta.value, delta.value.fields, false, pretty);
      assert lines == [Heading(name, false, depth)] + children;
      assert forall i :: 0 < i < |lines| ==> lines[i] == children[i - 1];
    case _ =>
  }

  predicate AllAtDepthOne(lines: seq<Line>) {
    forall i :: 0 <= i < |lines| ==> lines[i].depth == 1
  }

  lemma {:induction false} ChildrenDepths(parent: Json, entries: seq<(string, Json)>, isArray: bool, pretty: Json -> string)
    requires parent.JObj?
    requires forall e :: e in entries ==> e in parent.fields
    ensures AllAtDepthOne(RenderChildren(parent, entries, isArray, pretty))
    decreases parent, 0
  {
    var groups: seq<seq<Line>> := seq(|entries|, i requires 0 <= i < |entries| =>
      assert entries[i] in parent.fields;
      RenderNode(if isArray then DisplayKey(entries[i].0) else entries[i].0, Some(entries[i].1), 1, pretty));
    forall k | 0 <= k < |entries|
      ensures forall i :: 0 <= i < |groups[k]| ==> groups[k][i].depth == 1
    {
      assert entries[k] in parent.fields;
      assert groups[k] == RenderNode(if isArray then DisplayKey(entries[k].0) else entries[k].0, Some(entries[k].1), 1, pretty);
      RenderDepths(if isArray then DisplayKey(entries[k].0) else entries[k].0, Some(entries[k].1), 1, pretty);
    }
    FlattenDepths(groups);
  }

  lemma {:induction false} FlattenDepths(groups: seq<seq<Line>>)
    requires forall k, i :: 0 <= k < |groups| && 0 <= i < |groups[k]| ==> groups[k][i].depth == 1
    ensures forall i :: 0 <= i < |Flatten(groups)| ==> Flatten(groups)[i].depth == 1
  {
    if groups != [] {
      FlattenDepths(groups[1..]);
      assert forall k :: 0 < k < |groups| ==> groups[1..][k - 1] == groups[k];
    }
  }

  /** What the diff panel shows for the library's result. */
  datatype View = NoDifferences | Structural(lines: seq<Line>)

  /** `DiffDisplay`: "no differences" for `undefined`; otherwise the entries
      of a top-level object delta at depth 0, and none at all for any other
      top-level shape. */
  function DiffView(delta: Option<Json>, pretty: Json -> string): View {
    if delta.None? then NoDifferences
    else if IsObjectDelta(delta) then
      Structural(Flatten(seq(|delta.value.fields|, i requires 0 <= i < |delta.value.fields| =>
        RenderNode(delta.value.fields[i].0, Some(delta.value.fields[i].1), 0, pretty))))
    else Structural([])
  }

  /** A top-level delta that is not an object delta leaves the panel empty. */
  lemma TopLevelOnlyObjects(delta: Json, pretty: Json -> string)
    requires !IsObjectDelta(Some(delta))
    ensures DiffView(Some(delta), pretty) == Structural([])
  {
  }

  // ---------------------------------------------------------------------
  // Array element identity

  /** The `objectHash` option: the element's `word` when it is a string,
      otherwise `JSON.stringify(element)`, given here as `stringify`. */
  function ObjectHash(element: Json, stringify: Json -> string): string {
    match StringMember(element, "word")
    case Some(w) => w
    case None => stringify(element)
  }

  /** Two grains with the same `word` are the same array element to the
      diff, whatever else differs; elements without a string `word` are
      identified by their whole serialisation. */
  lemma HashByWord(a: Json, b: Json, stringify: Json -> string)
    ensures StringMember(a, "word").Some? && StringMember(a, "word") == StringMember(b, "word") ==>
      ObjectHash(a, stringify) == ObjectHash(b, stringify)
    ensures StringMember(a, "word").None? ==> ObjectHash(a, stringify) == stringify(a)
  {
  }
}
