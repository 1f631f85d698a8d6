/** JSON values as the site's components see them after `JSON.parse`.
    Numbers are integers. An object keeps its entries in the order stored
    here, which `Entries` lists as they are; JavaScript's own enumeration
    order (integer-like keys first), the last-wins rule for duplicate keys
    and inherited properties are not modelled. */
module Json {
  import opened Wrappers
  import opened Strings

  datatype Json =
    | JNull
    | JBool(b: bool)
    | JNum(n: int)
    | JStr(s: string)
    | JArr(items: seq<Json>)
    | JObj(fields: seq<(string, Json)>)

  /** The value stored under `key` in an object's entries (the first such entry). */
  function Lookup(fields: seq<(string, Json)>, key: string): Option<Json> {
    if fields == [] then None
    else if fields[0].0 == key then Some(fields[0].1)
    else Lookup(fields[1..], key)
  }

  /** The lookup finds a value exactly when some entry has the key, and what
      it finds is stored under that key. */
  lemma {:induction false} LookupSpec(fields: seq<(string, Json)>, key: string)
    ensures Lookup(fields, key).Some? <==> exists i :: 0 <= i < |fields| && fields[i].0 == key
    ensures Lookup(fields, key).Some? ==> exists i :: 0 <= i < |fields| && fields[i] == (key, Lookup(fields, key).value)
  {
    if fields != [] && fields[0].0 != key {
      LookupSpec(fields[1..], key);
      assert forall i :: 0 < i < |fields| ==> fields[i] == fields[1..][i - 1];
    }
  }

  /** No key occurs twice, as in every object `JSON.parse` builds. */
  predicate DistinctKeys(fields: seq<(string, Json)>) {
    forall i, j :: 0 <= i < j < |fields| ==> fields[i].0 != fields[j].0
  }

  /** The property read `j[key]` (and the test `key in j`) on a JSON value:
      an object's own keys, an array's canonical indices and its `length`.
      Callers in the site only read properties of objects and arrays. */
  function Member(j: Json, key: string): Option<Json> {
    match j
    case JObj(fields) => Lookup(fields, key)
    case JArr(items) =>
      if key == "length" then Some(JNum(|items|))
      else (match CanonicalIndex(key)
            case Some(i) => if i < |items| then Some(items[i]) else None
            case None => None)
    case _ => None
  }

  /** `Object.entries(j)` of an object or an array. */
  function Entries(j: Json): (r: seq<(string, Json)>)
    ensures j.JObj? ==> r == j.fields
    ensures j.JArr? ==> |r| == |j.items|
    ensures !j.JObj? && !j.JArr? ==> r == []
  {
    match j
    case JObj(fields) => fields
    case JArr(items) => seq(|items|, i requires 0 <= i < |items| => (NatToString(i), items[i]))
    case _ => []
  }

  /** Every entry that `Entries` lists is what a property read with its key
      gives back. */
  lemma EntriesAreMembers(j: Json, i: nat)
    requires j.JObj? ==> DistinctKeys(j.fields)
    requires i < |Entries(j)|
    ensures Member(j, Entries(j)[i].0) == Some(Entries(j)[i].1)
  {
    match j
    case JObj(fields) =>
      LookupDistinct(fields, i);
    case JArr(items) =>
      CanonicalIndexOfNat(i);
      assert IsDigit(NatToString(i)[0]);
  }

  lemma {:induction false} LookupDistinct(fields: seq<(string, Json)>, i: nat)
    requires DistinctKeys(fields)
    requires i < |fields|
    ensures Lookup(fields, fields[i].0) == Some(fields[i].1)
  {
    if i > 0 {
      assert fields[0].0 != fields[i].0;
      LookupDistinct(fields[1..], i - 1);
    }
  }

  /** JavaScript truthiness of a JSON value. */
  predicate Truthy(j: Json) {
    match j
    case JNull => false
    case JBool(b) => b
    case JNum(n) => n != 0
    case JStr(s) => s != ""
    case _ => true
  }

  /** Truthiness of a property read, `undefined` being falsy. */
  predicate Present(o: Option<Json>) {
    o.Some? && Truthy(o.value)
  }

  /** `x && typeof x === "object"`: a non-null object or an array. */
  predicate ObjectLike(o: Option<Json>) {
    o.Some? && (o.value.JObj? || o.value.JArr?)
  }

  /** `x ?? fallback`: the value unless it is `null` or `undefined`. */
  function Coalesce(o: Option<Json>, fallback: Json): (r: Json)
    ensures o.Some? && !o.value.JNull? ==> r == o.value
    ensures o.None? || o.value.JNull? ==> r == fallback
  {
    if o.Some? && !o.value.JNull? then o.value else fallback
  }

  /** `typeof j[key] === "string" ? j[key] : undefined` */
  function StringMember(j: Json, key: string): (r: Option<string>)
    ensures r.Some? <==> Member(j, key).Some? && Member(j, key).value.JStr?
  {
    match Member(j, key)
    case Some(JStr(s)) => Some(s)
    case _ => None
  }

  /** `String(j)`; arrays print their elements joined by commas with
      `null` elements printed as nothing, as `Array.prototype.join` does. */
  function ToJsString(j: Json): string
    decreases j
  {
    match j
    case JNull => "null"
    case JBool(b) => if b then "true" else "false"
    case JNum(n) => IntToString(n)
    case JStr(s) => s
    case JArr(items) => JoinValues(items, ",")
    case JObj(_) => "[object Object]"
  }

  /** `items.join(sep)`: each element as `String` prints it, `null` as nothing. */
  function JoinValues(items: seq<Json>, sep: string): string
    decreases items
  {
    Join(seq(|items|, i requires 0 <= i < |items| =>
           if items[i].JNull? then "" else ToJsString(items[i])), sep)
  }

  /** The names listed in a `required` keyword: the string elements of an array. */
  function RequiredNames(o: Option<Json>): (r: seq<string>)
    ensures forall s :: s in r <==> (o.Some? && o.value.JArr? && JStr(s) in o.value.items)
  {
    match o
    case Some(JArr(items)) => StringElements(items)
    case _ => []
  }

  function StringElements(items: seq<Json>): (r: seq<string>)
    ensures forall s :: s in r <==> JStr(s) in items
  {
    if items == [] then []
    else
      var rest := StringElements(items[1..]);
      assert forall x :: x in items <==> x == items[0] || x in items[1..];
      match items[0]
      case JStr(s) => [s] + rest
      case _ => rest
  }
}
