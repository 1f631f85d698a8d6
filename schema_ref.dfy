/** The `$ref` resolver shared, character for character, by the schema viewer
    and the schema tree: a JSON Pointer walk over a `#/...` fragment that does
    not decode `~0` or `~1` escapes. */
module SchemaRef {
  import opened Wrappers
  import opened Strings
  import opened Json

  /** `ref.replace(/^#\//, "")`: drops one leading `#/`. */
  function StripFragmentPrefix(ref: string): (r: string)
    ensures StartsWith(ref, "#/") ==> r == ref[2..]
    ensures !StartsWith(ref, "#/") ==> r == ref
  {
    if StartsWith(ref, "#/") then ref[2..] else ref
  }

  /** The segments the walk follows: the rest of the reference split on `/`. */
  function Segments(ref: string): (r: seq<string>)
    ensures |r| >= 1
    ensures forall i :: 0 <= i < |r| ==> '/' !in r[i]
  {
    SplitPiecesFree(StripFragmentPrefix(ref), '/');
    Split(StripFragmentPrefix(ref), '/')
  }

  /** The node reached from `node` by following every segment; `None` as soon
      as a segment is missing or the current node is not an object or array. */
  function Walk(node: Json, parts: seq<string>): Option<Json>
    decreases |parts|
  {
    if parts == [] then Some(node)
    else
      match Member(node, parts[0])
      case None => None
      case Some(next) => Walk(next, parts[1..])
  }

  /** `resolveRef(ref, root)`: the loop that reassigns `current` segment by
      segment and gives up with `undefined` at the first miss. */
  method ResolveRef(ref: string, root: Json) returns (r: Option<Json>)
    ensures r == Walk(root, Segments(ref))
  {
    var parts := Segments(ref);
    var current := root;
    for i := 0 to |parts|
      invariant Walk(root, parts) == Walk(current, parts[i..])
    {
      assert parts[i..][1..] == parts[i + 1..];
      match Member(current, parts[i]) {
        case None =>
          return None;
        case Some(next) =>
          current := next;
      }
    }
    assert parts[|parts|..] == [];
    return Some(current);
  }

  /** Walking `p + q` is walking `p` and then walking `q` from where `p` ended. */
  lemma {:induction false} WalkAppend(node: Json, p: seq<string>, q: seq<string>)
    ensures Walk(node, p + q) ==
      match Walk(node, p)
      case None => None
      case Some(mid) => Walk(mid, q)
    decreases |p|
  {
    if p == [] {
      assert p + q == q;
    } else {
      assert (p + q)[0] == p[0];
      assert (p + q)[1..] == p[1..] + q;
      match Member(node, p[0]) {
        case None =>
        case Some(next) => WalkAppend(next, p[1..], q);
      }
    }
  }

  /** The walk reaches the first `k` segments and then misses segment `k`. */
  ghost predicate FailsAt(node: Json, parts: seq<string>, k: nat) {
    k < |parts| && Walk(node, parts[..k]).Some? && Member(Walk(node, parts[..k]).value, parts[k]).None?
  }

  /** The walk fails exactly when some segment is missing at the node the
      earlier segments reach; it never fails for another reason. */
  lemma {:induction false} WalkFailsIffSegmentMissing(node: Json, parts: seq<string>)
    ensures Walk(node, parts).None? <==> exists k: nat :: FailsAt(node, parts, k)
  {
    if Walk(node, parts).None? {
      var k := FailingSegment(node, parts);
      assert FailsAt(node, parts, k);
    }
    if exists k: nat :: FailsAt(node, parts, k) {
      var k: nat :| FailsAt(node, parts, k);
      assert parts == parts[..k] + parts[k..];
      WalkAppend(node, parts[..k], parts[k..]);
    }
  }

  lemma {:induction false} FailingSegment(node: Json, parts: seq<string>) returns (k: nat)
    requires Walk(node, parts).None?
    ensures FailsAt(node, parts, k)
    decreases |parts|
  {
    match Member(node, parts[0]) {
      case None =>
        k := 0;
      case Some(next) =>
        var k' := FailingSegment(next, parts[1..]);
        k := k' + 1;
        assert parts[..k][1..] == parts[1..][..k'];
        assert parts[k] == parts[1..][k'];
    }
  }

  /** A reference written as `#/` followed by slash-free segments is walked
      along exactly those segments. */
  lemma PointerSegments(names: seq<string>)
    requires |names| >= 1
    requires forall i :: 0 <= i < |names| ==> '/' !in names[i]
    ensures Segments("#/" + Join(names, "/")) == names
  {
    var rest := Join(names, "/");
    assert ("#/" + rest)[..2] == "#/";
    assert ("#/" + rest)[2..] == rest;
    SplitJoin(names, '/');
  }

  /** `#/$defs/<Name>` reaches the definition stored under `Name`. */
  lemma DefinitionReference(root: Json, name: string, def: Json)
    requires '/' !in name
    requires Member(root, "$defs").Some?
    requires Member(Member(root, "$defs").value, name) == Some(def)
    ensures Walk(root, Segments("#/$defs/" + name)) == Some(def)
  {
    assert "$defs" + "/" + name == Join(["$defs", name], "/");
    assert "#/" + ("$defs" + "/" + name) == "#/$defs/" + name;
    PointerSegments(["$defs", name]);
    var defs := Member(root, "$defs").value;
    assert Walk(def, []) == Some(def);
    assert Walk(defs, [name]) == Walk(def, []);
    assert Walk(root, ["$defs", name]) == Walk(defs, [name]);
  }

  /** `node.$ref && typeof node.$ref === "string"`: a non-empty string `$ref`. */
  function RefOf(node: Json): (r: Option<string>)
    ensures r.Some? <==> Member(node, "$ref").Some? && Member(node, "$ref").value.JStr? && Member(node, "$ref").value.s != ""
    ensures r.Some? ==> Member(node, "$ref") == Some(JStr(r.value))
  {
    match Member(node, "$ref")
    case Some(JStr(s)) => if s != "" then Some(s) else None
    case _ => None
  }

  /** `resolveRef(node.$ref, root) ?? node` when the node carries a reference:
      a reference that cannot be followed, or that leads to `null`, leaves the
      node itself in place rather than dropping it. */
  function Deref(node: Json, root: Json): Json {
    match RefOf(node)
    case None => node
    case Some(ref) => Coalesce(Walk(root, Segments(ref)), node)
  }

  /** The `let resolved = node; if (node.$ref ...) resolved = resolveRef(...) ?? node`
      step that every schema component repeats. */
  method ResolveNode(node: Json, root: Json) returns (resolved: Json)
    ensures resolved == Deref(node, root)
  {
    resolved := node;
    var ref := RefOf(node);
    if ref.Some? {
      var target := ResolveRef(ref.value, root);
      resolved := Coalesce(target, node);
    }
  }

  /** `node.items` when it is an object (or array). */
  function ItemsOf(node: Json): (r: Option<Json>)
    ensures r.Some? <==> ObjectLike(Member(node, "items"))
    ensures r.Some? ==> Member(node, "items") == r
  {
    if ObjectLike(Member(node, "items")) then Member(node, "items") else None
  }
}
