/** The specification page's definition tables: one section per `$defs`
    entry that has properties, one row per property with its type name,
    required flag, description and a one-line constraint summary. The
    records are the typed shapes the component declares for them. */
module SchemaPropertyTable {
  import opened Wrappers
  import opened Strings
  import opened Json
  import opened SchemaRef

  datatype ItemsObject = ItemsObject(typ: Option<string>, ref: Option<string>)

  datatype PropertyObject = PropertyObject(
    typ: Option<string>,
    description: Option<string>,
    format: Option<string>,
    enumValues: Option<seq<string>>,
    minimum: Option<int>,
    maximum: Option<int>,
    minLength: Option<int>,
    maxLength: Option<int>,
    pattern: Option<string>,
    items: Option<ItemsObject>,
    ref: Option<string>,
    defaultValue: Option<Json>)

  datatype DefObject = DefObject(
    description: Option<string>,
    required: Option<seq<string>>,
    properties: Option<seq<(string, PropertyObject)>>)

  /** A string that JavaScript counts as true: present and non-empty. */
  predicate TruthyString(o: Option<string>) {
    o.Some? && o.value != ""
  }

  const DefsPrefix: string := "#/$defs/"

  /** `ref.replace("#/$defs/", "")`: the first occurrence removed. */
  function RefName(ref: string): string {
    ReplaceFirst(ref, DefsPrefix, "")
  }

  /** `resolveTypeName(prop)` */
  function ResolveTypeName(prop: PropertyObject): string {
    if TruthyString(prop.ref) then RefName(prop.ref.value)
    else
      var base := prop.typ.GetOr("any");
      if base == "array" && prop.items.Some? then
        var items := prop.items.value;
        if TruthyString(items.ref) then RefName(items.ref.value) + "[]"
        else items.typ.GetOr("any") + "[]"
      else
        var formatted := if TruthyString(prop.format) then base + " (" + prop.format.value + ")" else base;
        if prop.enumValues.Some? then "enum" else formatted
  }

  /** A reference into `$defs` shows the definition's name, and that name is
      the definition the reference reaches; every other key is ignored. */
  lemma RefShowsDefinitionName(prop: PropertyObject, name: string, root: Json, def: Json)
    requires prop.ref == Some(DefsPrefix + name)
    requires '/' !in name
    requires Member(root, "$defs").Some? && Member(Member(root, "$defs").value, name) == Some(def)
    ensures ResolveTypeName(prop) == name
    ensures Walk(root, Segments(prop.ref.value)) == Some(def)
  {
    ReplacePrefix(DefsPrefix, name);
    DefinitionReference(root, name, def);
  }

  /** An array with `items` is named after its items, `[]` appended; a
      format or an enum on the array itself is then not shown. */
  lemma ArrayTypeName(prop: PropertyObject)
    requires !TruthyString(prop.ref)
    requires prop.typ == Some("array") && prop.items.Some?
    ensures var r := ResolveTypeName(prop);
      |r| >= 2 && r[|r| - 2..] == "[]" &&
      r[..|r| - 2] == (if TruthyString(prop.items.value.ref) then RefName(prop.items.value.ref.value)
                       else prop.items.value.typ.GetOr("any"))
  {
    var r := ResolveTypeName(prop);
    var head := if TruthyString(prop.items.value.ref) then RefName(prop.items.value.ref.value)
                else prop.items.value.typ.GetOr("any");
    assert r == head + "[]";
    assert r[..|r| - 2] == head;
  }

  /** Outside references and arrays with items, an enum always shows as
      "enum"; otherwise the base type (default "any") with the format in
      parentheses when there is one. */
  lemma ScalarTypeName(prop: PropertyObject)
    requires !TruthyString(prop.ref)
    requires !(prop.typ.GetOr("any") == "array" && prop.items.Some?)
    ensures prop.enumValues.Some? ==> ResolveTypeName(prop) == "enum"
    ensures prop.enumValues.None? && !TruthyString(prop.format) ==> ResolveTypeName(prop) == prop.typ.GetOr("any")
    ensures prop.enumValues.None? && TruthyString(prop.format) ==>
      ResolveTypeName(prop) == prop.typ.GetOr("any") + " (" + prop.format.value + ")"
  {
  }

  // ---------------------------------------------------------------------
  // Constraint summary

  /** The pieces of the summary, in the order the component pushes them:
      minimum and maximum whenever defined (0 included), minLength, a
      non-empty pattern, the enum values, the default. `maxLength` is not
      among them. */
  function ConstraintParts(prop: PropertyObject, stringify: Json -> string): seq<string> {
    [] +
    (if prop.minimum.Some? then ["min: " + IntToString(prop.minimum.value)] else []) +
    (if prop.maximum.Some? then ["max: " + IntToString(prop.maximum.value)] else []) +
    (if prop.minLength.Some? then ["minLength: " + IntToString(prop.minLength.value)] else []) +
    (if TruthyString(prop.pattern) then ["pattern: " + prop.pattern.value] else []) +
    (if prop.enumValues.Some? then [Join(prop.enumValues.value, ", ")] else []) +
    (if prop.defaultValue.Some? then ["default: " + stringify(prop.defaultValue.value)] else [])
  }

  /** `constraintText(prop)`: pushes the applicable pieces onto `parts` and
      joins them with "; ". */
  method ConstraintText(prop: PropertyObject, stringify: Json -> string) returns (text: string)
    ensures text == Join(ConstraintParts(prop, stringify), "; ")
  {
    var parts: seq<string> := [];
    if prop.minimum.Some? {
      parts := parts + ["min: " + IntToString(prop.minimum.value)];
    }
    ghost var spec := [] + (if prop.minimum.Some? then ["min: " + IntToString(prop.minimum.value)] else []);
    assert parts == spec;
    if prop.maximum.Some? {
      parts := parts + ["max: " + IntToString(prop.maximum.value)];
    }
    spec := spec + (if prop.maximum.Some? then ["max: " + IntToString(prop.maximum.value)] else []);
    assert parts == spec;
    if prop.minLength.Some? {
      parts := parts + ["minLength: " + IntToString(prop.minLength.value)];
    }
    spec := spec + (if prop.minLength.Some? then ["minLength: " + IntToString(prop.minLength.value)] else []);
    assert parts == spec;
    if TruthyString(prop.pattern) {
      parts := parts + ["pattern: " + prop.pattern.value];
    }
    spec := spec + (if TruthyString(prop.pattern) then ["pattern: " + prop.pattern.value] else []);
    assert parts == spec;
    if prop.enumValues.Some? {
      parts := parts + [Join(prop.enumValues.value, ", ")];
    }
    spec := spec + (if prop.enumValues.Some? then [Join(prop.enumValues.value, ", ")] else []);
    assert parts == spec;
    if prop.defaultValue.Some? {
      parts := parts + ["default: " + stringify(prop.defaultValue.value)];
    }
    spec := spec + (if prop.defaultValue.Some? then ["default: " + stringify(prop.defaultValue.value)] else []);
    assert parts == spec;
    text := Join(parts, "; ");
  }

  /** A join is empty exactly when there is at most one piece and it is empty. */
  lemma {:induction false} JoinEmpty(parts: seq<string>, sep: string)
    requires sep != ""
    ensures Join(parts, sep) == "" <==> |parts| == 0 || (|parts| == 1 && parts[0] == "")
  {
    if |parts| >= 2 {
      assert |Join(parts, sep)| >= |sep|;
    }
  }

  /** The summary is empty exactly when nothing applies, or when the only
      thing that applies is an enum whose values join to nothing (an empty
      enum, or one holding just ""). Every other piece is non-empty. */
  lemma ConstraintTextEmpty(prop: PropertyObject, stringify: Json -> string)
    ensures Join(ConstraintParts(prop, stringify), "; ") == "" <==>
      && prop.minimum.None? && prop.maximum.None? && prop.minLength.None?
      && !TruthyString(prop.pattern) && prop.defaultValue.None?
      && (prop.enumValues.None? || Join(prop.enumValues.value, ", ") == "")
  {
    JoinEmpty(ConstraintParts(prop, stringify), "; ");
  }

  /** `maxLength` never changes the summary. */
  lemma MaxLengthIgnored(prop: PropertyObject, m: Option<int>, stringify: Json -> string)
    ensures ConstraintParts(prop.(maxLength := m), stringify) == ConstraintParts(prop, stringify)
  {
  }

  /** Bounds of 0 are listed: the tests are `!== undefined`, not truthiness. */
  lemma ZeroBoundsListed(prop: PropertyObject, stringify: Json -> string)
    requires prop.minimum == Some(0) && prop.maximum == Some(0)
    ensures var parts := ConstraintParts(prop, stringify);
      |parts| >= 2 && parts[0] == "min: 0" && parts[1] == "max: 0"
  {
  }

  // ---------------------------------------------------------------------
  // Definition sections

  datatype TableRow = TableRow(field: string, typeName: string, required: bool, description: string, constraints: string)

  datatype Section = Section(name: string, description: Option<string>, rows: seq<TableRow>)

  /** The row for one property of a definition. */
  function RowOf(field: string, prop: PropertyObject, requiredFields: seq<string>, stringify: Json -> string): TableRow {
    TableRow(field, ResolveTypeName(prop), field in requiredFields, prop.description.GetOr(""),
             Join(ConstraintParts(prop, stringify), "; "))
  }

  /** `DefinitionSection`: nothing without `properties`; otherwise one row
      per property, in order, required iff listed in `def.required`. */
  function DefinitionSection(name: string, def: DefObject, stringify: Json -> string): (r: Option<Section>)
    ensures r.Some? <==> def.properties.Some?
    ensures r.Some? ==>
      var entries := def.properties.value;
      && r.value.name == name
      && |r.value.rows| == |entries|
      && forall i :: 0 <= i < |entries| ==>
           && r.value.rows[i].field == entries[i].0
           && r.value.rows[i].typeName == ResolveTypeName(entries[i].1)
           && (r.value.rows[i].required <==> entries[i].0 in def.required.GetOr([]))
  {
    match def.properties
    case None => None
    case Some(entries) =>
      var requiredFields := def.required.GetOr([]);
      Some(Section(name, def.description,
                   seq(|entries|, i requires 0 <= i < |entries| => RowOf(entries[i].0, entries[i].1, requiredFields, stringify))))
  }

  /** `SchemaPropertyTable` in table view: the sections of `$defs` (an
      absent `$defs` counting as empty), skipping definitions without
      properties. */
  function Sections(defs: seq<(string, DefObject)>, stringify: Json -> string): seq<Section> {
    if defs == [] then []
    else
      var first := DefinitionSection(defs[0].0, defs[0].1, stringify);
      (if first.Some? then [first.value] else []) + Sections(defs[1..], stringify)
  }

  /** The names of the definitions that have properties, in order. */
  function NamesWithProperties(defs: seq<(string, DefObject)>): seq<string> {
    if defs == [] then []
    else (if defs[0].1.properties.Some? then [defs[0].0] else []) + NamesWithProperties(defs[1..])
  }

  function SectionNames(sections: seq<Section>): seq<string> {
    seq(|sections|, i requires 0 <= i < |sections| => sections[i].name)
  }

  /** The sections are exactly the definitions with properties, in `$defs`
      order, and never more than there are definitions. */
  lemma {:induction false} SectionsAreDefinitionsWithProperties(defs: seq<(string, DefObject)>, stringify: Json -> string)
    ensures SectionNames(Sections(defs, stringify)) == NamesWithProperties(defs)
    ensures |Sections(defs, stringify)| <= |defs|
  {
    if defs != [] {
      SectionsAreDefinitionsWithProperties(defs[1..], stringify);
      var first := DefinitionSection(defs[0].0, defs[0].1, stringify);
      var rest := Sections(defs[1..], stringify);
      var head := if first.Some? then [first.value] else [];
      assert SectionNames(head + rest) == SectionNames(head) + SectionNames(rest);
    }
  }
}
