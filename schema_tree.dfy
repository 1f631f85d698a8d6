/** The collapsible schema tree: one row per property with its displayed
    type, required badge and description, and the rows below it when it is
    expanded. The tree is modelled as first rendered, when a row is expanded
    exactly when its depth is below 2. */
module SchemaTree {
  import opened Wrappers
  import opened Json
  import opened SchemaRef

  /** `resolved.type ?? (resolved.$ref ? "ref" : "object")`: the type
      badge. A node whose reference could not be followed keeps its `$ref`
      and shows "ref". */
  function DisplayType(resolved: Json): Json {
    Coalesce(Member(resolved, "type"), if Present(Member(resolved, "$ref")) then JStr("ref") else JStr("object"))
  }

  /** `Boolean(resolved.properties || (resolved.items && typeof resolved.items === "object"))` */
  predicate HasChildren(resolved: Json) {
    Present(Member(resolved, "properties")) || ObjectLike(Member(resolved, "items"))
  }

  /** `useState(depth < 2)`: the first two levels start expanded. */
  predicate StartsExpanded(depth: nat) {
    depth < 2
  }

  /** One rendered `SchemaProperty` and the rows it renders below itself. */
  datatype Node = Node(
    name: string,
    typ: Json,
    description: Option<string>,
    required: bool,
    depth: nat,
    hasChildren: bool,
    expanded: bool,
    children: seq<Node>)

  /** `SchemaProperty`: the row for one property. Every level of nesting
      spends one unit of `fuel`; `None` means the fuel ran out (a cyclic
      `$ref` makes the component recurse without end). */
  function PropertyNode(name: string, schema: Json, root: Json, depth: nat, required: bool, fuel: nat): Option<Node>
    decreases fuel, 0, 1
  {
    var resolved := Deref(schema, root);
    var hasChildren := HasChildren(resolved);
    var expanded := StartsExpanded(depth);
    var children := if expanded && hasChildren then PropertiesNodes(resolved, root, depth + 1, fuel) else Some([]);
    match children
    case None => None
    case Some(cs) =>
      Some(Node(name, DisplayType(resolved), StringMember(resolved, "description"), required,
                depth, hasChildren, expanded, cs))
  }

  /** `SchemaProperties`: the rows for a schema's `properties`, each flagged
      required when its key is in the schema's `required` list; failing
      that, the rows of the resolved `items` schema at the same depth when
      it has `properties`; failing that, nothing. */
  function PropertiesNodes(schema: Json, root: Json, depth: nat, fuel: nat): Option<seq<Node>>
    decreases fuel, 0, 0
  {
    if fuel == 0 then None
    else
      var requiredFields := RequiredNames(Member(schema, "required"));
      var props := Member(schema, "properties");
      if ObjectLike(props) then EntryNodes(Entries(props.value), requiredFields, root, depth, fuel - 1)
      else
        match ItemsOf(schema)
        case None => Some([])
        case Some(items) =>
          var target := Deref(items, root);
          if Present(Member(target, "properties")) then PropertiesNodes(target, root, depth, fuel - 1) else Some([])
  }

  /** `Object.entries(props).map(...)`: one `SchemaProperty` per entry, in order. */
  function EntryNodes(entries: seq<(string, Json)>, requiredFields: seq<string>, root: Json, depth: nat, fuel: nat): Option<seq<Node>>
    decreases fuel, 1, |entries|
  {
    if entries == [] then Some([])
    else
      var last := entries[|entries| - 1];
      match EntryNodes(entries[..|entries| - 1], requiredFields, root, depth, fuel)
      case None => None
      case Some(before) =>
        match PropertyNode(last.0, last.1, root, depth, last.0 in requiredFields, fuel)
        case None => None
        case Some(n) => Some(before + [n])
  }

  /** `SchemaTree`: the rows of the whole schema, from depth 0. */
  function Tree(schema: Json, fuel: nat): Option<seq<Node>> {
    PropertiesNodes(schema, schema, 0, fuel)
  }

  // ---------------------------------------------------------------------
  // What the rendered tree looks like

  /** The row for `(key, value)`: named after the key, badge and description
      taken from the resolved value, required iff the key is listed. */
  predicate RowFor(n: Node, key: string, value: Json, requiredFields: seq<string>, root: Json, depth: nat) {
    var resolved := Deref(value, root);
    && n.name == key
    && n.typ == DisplayType(resolved)
    && n.description == StringMember(resolved, "description")
    && (n.required <==> key in requiredFields)
    && n.depth == depth
    && n.hasChildren == HasChildren(resolved)
  }

  /** One row per entry, in the entries' order. */
  predicate ListsEntries(ns: seq<Node>, entries: seq<(string, Json)>, requiredFields: seq<string>, root: Json, depth: nat) {
    |ns| == |entries| &&
    forall i :: 0 <= i < |ns| ==> RowFor(ns[i], entries[i].0, entries[i].1, requiredFields, root, depth)
  }

  /** Rows at `depth`, expanded exactly below depth 2, with children only
      when expanded and having children, and those children one level down. */
  predicate WellFormed(ns: seq<Node>, depth: nat)
    decreases ns
  {
    forall i :: 0 <= i < |ns| ==>
      && ns[i].depth == depth
      && (ns[i].expanded <==> depth < 2)
      && (ns[i].children != [] ==> ns[i].expanded && ns[i].hasChildren)
      && WellFormed(ns[i].children, depth + 1)
  }

  /** Every row in the forest, at any level, has depth at most `bound`. */
  predicate DepthsAtMost(ns: seq<Node>, bound: nat)
    decreases ns
  {
    forall i :: 0 <= i < |ns| ==> ns[i].depth <= bound && DepthsAtMost(ns[i].children, bound)
  }

  lemma {:induction false} EntryNodesListEntries(entries: seq<(string, Json)>, requiredFields: seq<string>, root: Json, depth: nat, fuel: nat)
    requires EntryNodes(entries, requiredFields, root, depth, fuel).Some?
    ensures ListsEntries(EntryNodes(entries, requiredFields, root, depth, fuel).value, entries, requiredFields, root, depth)
    decreases |entries|
  {
    if entries != [] {
      var init := entries[..|entries| - 1];
      EntryNodesListEntries(init, requiredFields, root, depth, fuel);
      var ns := EntryNodes(entries, requiredFields, root, depth, fuel).value;
      var before := EntryNodes(init, requiredFields, root, depth, fuel).value;
      forall i | 0 <= i < |ns|
        ensures RowFor(ns[i], entries[i].0, entries[i].1, requiredFields, root, depth)
      {
        if i < |before| {
          assert ns[i] == before[i];
          assert entries[i] == init[i];
        }
      }
    }
  }

  /** `properties` win over `items`: when the schema has an object of
      properties, its rows are exactly one per property, whatever `items`
      holds. */
  lemma PropertiesComeFirst(schema: Json, root: Json, depth: nat, fuel: nat)
    requires ObjectLike(Member(schema, "properties"))
    requires PropertiesNodes(schema, root, depth, fuel).Some?
    ensures ListsEntries(PropertiesNodes(schema, root, depth, fuel).value,
                         Entries(Member(schema, "properties").value),
                         RequiredNames(Member(schema, "required")), root, depth)
  {
    EntryNodesListEntries(Entries(Member(schema, "properties").value),
                          RequiredNames(Member(schema, "required")), root, depth, fuel - 1);
  }

  /** Without properties, the resolved `items` schema's properties are listed
      at the same depth, with the items schema's `required` list; a schema
      with neither lists nothing. */
  lemma ItemsAtSameDepth(schema: Json, root: Json, depth: nat, fuel: nat)
    requires !ObjectLike(Member(schema, "properties"))
    requires PropertiesNodes(schema, root, depth, fuel).Some?
    ensures ItemsOf(schema).None? ==> PropertiesNodes(schema, root, depth, fuel).value == []
    ensures ItemsOf(schema).Some? ==>
      var target := Deref(ItemsOf(schema).value, root);
      ObjectLike(Member(target, "properties")) ==>
        ListsEntries(PropertiesNodes(schema, root, depth, fuel).value,
                     Entries(Member(target, "properties").value),
                     RequiredNames(Member(target, "required")), root, depth)
  {
    if ItemsOf(schema).Some? {
      var target := Deref(ItemsOf(schema).value, root);
      if ObjectLike(Member(target, "properties")) {
        PropertiesComeFirst(target, root, depth, fuel - 1);
      }
    }
  }

  lemma {:induction false} PropertiesNodesWellFormed(schema: Json, root: Json, depth: nat, fuel: nat)
    requires PropertiesNodes(schema, root, depth, fuel).Some?
    ensures WellFormed(PropertiesNodes(schema, root, depth, fuel).value, depth)
    decreases fuel, 0, 0
  {
    var props := Member(schema, "properties");
    if ObjectLike(props) {
      EntryNodesWellFormed(Entries(props.value), RequiredNames(Member(schema, "required")), root, depth, fuel - 1);
    } else if ItemsOf(schema).Some? {
      var target := Deref(ItemsOf(schema).value, root);
      if Present(Member(target, "properties")) {
        PropertiesNodesWellFormed(target, root, depth, fuel - 1);
      }
    }
  }

  lemma {:induction false} EntryNodesWellFormed(entries: seq<(string, Json)>, requiredFields: seq<string>, root: Json, depth: nat, fuel: nat)
    requires EntryNodes(entries, requiredFields, root, depth, fuel).Some?
    ensures WellFormed(EntryNodes(entries, requiredFields, root, depth, fuel).value, depth)
    decreases fuel, 1, |entries|
  {
    if entries != [] {
      var init := entries[..|entries| - 1];
      var last := entries[|entries| - 1];
      EntryNodesWellFormed(init, requiredFields, root, depth, fuel);
      var resolved := Deref(last.1, root);
      if StartsExpanded(depth) && HasChildren(resolved) {
        PropertiesNodesWellFormed(resolved, root, depth + 1, fuel);
      }
      var ns := EntryNodes(entries, requiredFields, root, depth, fuel).value;
      var before := EntryNodes(init, requiredFields, root, depth, fuel).value;
      assert forall i :: 0 <= i < |before| ==> ns[i] == before[i];
    }
  }

  /** Rows at depth 2 are collapsed, so a well-formed forest that starts at
      depth 2 or less never goes deeper than 2. */
  lemma {:induction false} WellFormedDepths(ns: seq<Node>, depth: nat)
    requires depth <= 2
    requires WellFormed(ns, depth)
    ensures DepthsAtMost(ns, 2)
    decreases ns
  {
    forall i | 0 <= i < |ns|
      ensures DepthsAtMost(ns[i].children, 2)
    {
      if ns[i].children != [] {
        WellFormedDepths(ns[i].children, depth + 1);
      }
    }
  }

  /** The tree as first rendered is at most three levels deep (depths 0, 1
      and 2), and its top level is one row per root property. */
  lemma TreeShape(schema: Json, fuel: nat)
    requires Tree(schema, fuel).Some?
    ensures DepthsAtMost(Tree(schema, fuel).value, 2)
    ensures ObjectLike(Member(schema, "properties")) ==>
      ListsEntries(Tree(schema, fuel).value, Entries(Member(schema, "properties").value),
                   RequiredNames(Member(schema, "required")), schema, 0)
  {
    PropertiesNodesWellFormed(schema, schema, 0, fuel);
    WellFormedDepths(Tree(schema, fuel).value, 0);
    if ObjectLike(Member(schema, "properties")) {
      PropertiesComeFirst(schema, schema, 0, fuel);
    }
  }

  /** The fuel only decides whether the tree is complete: once some fuel
      gives a tree, every larger fuel gives the same tree, which is
      therefore the one the component renders. */
  lemma TreeFuelMonotone(schema: Json, fuel: nat, more: nat)
    requires fuel <= more
    requires Tree(schema, fuel).Some?
    ensures Tree(schema, more) == Tree(schema, fuel)
  {
    PropertiesNodesFuelMonotone(schema, schema, 0, fuel, more);
  }

  lemma {:induction false} PropertiesNodesFuelMonotone(schema: Json, root: Json, depth: nat, fuel: nat, more: nat)
    requires fuel <= more
    requires PropertiesNodes(schema, root, depth, fuel).Some?
    ensures PropertiesNodes(schema, root, depth, more) == PropertiesNodes(schema, root, depth, fuel)
    decreases fuel, 0, 0
  {
    var props := Member(schema, "properties");
    if ObjectLike(props) {
      EntryNodesFuelMonotone(Entries(props.value), RequiredNames(Member(schema, "required")), root, depth, fuel - 1, more - 1);
    } else if ItemsOf(schema).Some? {
      var target := Deref(ItemsOf(schema).value, root);
      if Present(Member(target, "properties")) {
        PropertiesNodesFuelMonotone(target, root, depth, fuel - 1, more - 1);
      }
    }
  }

  lemma {:induction false} EntryNodesFuelMonotone(entries: seq<(string, Json)>, requiredFields: seq<string>, root: Json, depth: nat, fuel: nat, more: nat)
    requires fuel <= more
    requires EntryNodes(entries, requiredFields, root, depth, fuel).Some?
    ensures EntryNodes(entries, requiredFields, root, depth, more) == EntryNodes(entries, requiredFields, root, depth, fuel)
    decreases fuel, 1, |entries|
  {
    if entries != [] {
      var last := entries[|entries| - 1];
      EntryNodesFuelMonotone(entries[..|entries| - 1], requiredFields, root, depth, fuel, more);
      var resolved := Deref(last.1, root);
      if StartsExpanded(depth) && HasChildren(resolved) {
        PropertiesNodesFuelMonotone(resolved, root, depth + 1, fuel, more);
      }
    }
  }

  /** A property whose `$ref` cannot be followed, and which has no `type` of
      its own, is badged "ref" rather than dropped or mistyped. */
  lemma UnresolvedRefShowsRef(schema: Json, root: Json)
    requires RefOf(schema).Some?
    requires Walk(root, Segments(RefOf(schema).value)).None?
    requires Member(schema, "type").None?
    ensures Deref(schema, root) == schema
    ensures DisplayType(Deref(schema, root)) == JStr("ref")
  {
  }
}
