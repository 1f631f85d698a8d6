/** The specification page's markdown renderer: heading anchors made by
    `slugify`, the plain text of a heading's children, and the table of
    contents collected while the headings render. */
module RfcRenderer {
  import opened Wrappers
  import opened Strings

  // ---------------------------------------------------------------------
  // slugify

  /** The regular-expression class `\w`: ASCII letters, digits and `_`. */
  predicate IsWordChar(c: char) {
    ('a' <= c <= 'z') || ('A' <= c <= 'Z') || ('0' <= c <= '9') || c == '_'
  }

  predicate Allowed(c: char) {
    IsWordChar(c) || IsJsSpace(c) || c == '-'
  }

  /** `.replace(/[^\w\s-]/g, "")` */
  function KeepAllowed(s: string): (r: string)
    ensures forall i :: 0 <= i < |r| ==> Allowed(r[i]) && r[i] in s
    ensures (forall i :: 0 <= i < |s| ==> Allowed(s[i])) ==> r == s
  {
    if s == [] then []
    else
      var rest := KeepAllowed(s[1..]);
      assert forall c :: c in s[1..] ==> c in s;
      if Allowed(s[0]) then [s[0]] + rest else rest
  }

  /** `s` without its leading run of whitespace. */
  function DropSpaces(s: string): (r: string)
    ensures |r| <= |s| && r == s[|s| - |r|..]
    ensures r != [] ==> !IsJsSpace(r[0])
    ensures s != [] && !IsJsSpace(s[0]) ==> r == s
  {
    if s != [] && IsJsSpace(s[0]) then DropSpaces(s[1..]) else s
  }

  /** `.replace(/\s+/g, "-")`: every maximal run of whitespace becomes one "-". */
  function CollapseSpaces(s: string): string
    decreases |s|
  {
    if s == [] then []
    else if IsJsSpace(s[0]) then "-" + CollapseSpaces(DropSpaces(s[1..]))
    else [s[0]] + CollapseSpaces(s[1..])
  }

  predicate NoSpaces(s: string) {
    forall i :: 0 <= i < |s| ==> !IsJsSpace(s[i])
  }

  /** Every character of `r` is "-" or one of the characters of `s`. */
  predicate DrawnFrom(r: string, s: string) {
    forall i :: 0 <= i < |r| ==> r[i] == '-' || r[i] in s
  }

  lemma DrawnFromSuffix(r: string, rest: string, s: string, c: char)
    requires DrawnFrom(r, rest) && (c == '-' || c in s)
    requires forall x :: x in rest ==> x in s
    ensures DrawnFrom([c] + r, s)
  {
    var t := [c] + r;
    forall i | 0 <= i < |t|
      ensures t[i] == '-' || t[i] in s
    {
      if i > 0 {
        assert t[i] == r[i - 1];
      }
    }
  }

  /** After collapsing no whitespace is left, and every character other than
      "-" comes from the input. */
  lemma {:induction false} CollapseSpacesShape(s: string)
    ensures NoSpaces(CollapseSpaces(s))
    ensures DrawnFrom(CollapseSpaces(s), s)
    decreases |s|
  {
    if s != [] {
      var c, rest := CollapseSpacesCons(s);
      CollapseSpacesShape(rest);
      ConsShape(c, CollapseSpaces(rest), rest, s);
    }
  }

  /** One step of the collapse: a kept character or a "-" for a whitespace
      run, then the collapse of a suffix. */
  lemma CollapseSpacesCons(s: string) returns (c: char, rest: string)
    requires s != []
    ensures CollapseSpaces(s) == [c] + CollapseSpaces(rest)
    ensures !IsJsSpace(c) && (c == '-' || c in s)
    ensures |rest| < |s| && forall x :: x in rest ==> x in s
  {
    if IsJsSpace(s[0]) {
      c, rest := '-', DropSpaces(s[1..]);
      assert rest == s[|s| - |rest|..];
    } else {
      c, rest := s[0], s[1..];
    }
  }

  lemma ConsShape(c: char, r: string, rest: string, s: string)
    requires NoSpaces(r) && !IsJsSpace(c)
    requires DrawnFrom(r, rest) && (c == '-' || c in s)
    requires forall x :: x in rest ==> x in s
    ensures NoSpaces([c] + r)
    ensures DrawnFrom([c] + r, s)
  {
    DrawnFromSuffix(r, rest, s, c);
    assert forall i :: 0 < i < |[c] + r| ==> ([c] + r)[i] == r[i - 1];
  }

  /** A text without whitespace is left unchanged. */
  lemma {:induction false} CollapseSpacesFixed(s: string)
    requires NoSpaces(s)
    ensures CollapseSpaces(s) == s
    decreases |s|
  {
    if s != [] {
      assert NoSpaces(s[1..]) by {
        assert forall i :: 0 <= i < |s[1..]| ==> s[1..][i] == s[i + 1];
      }
      CollapseSpacesFixed(s[1..]);
      assert s == [s[0]] + s[1..];
    }
  }

  /** `s` without its leading run of "-". */
  function DropDashes(s: string): (r: string)
    ensures |r| <= |s| && r == s[|s| - |r|..]
    ensures r != [] ==> r[0] != '-'
    ensures s != [] && s[0] != '-' ==> r == s
  {
    if s != [] && s[0] == '-' then DropDashes(s[1..]) else s
  }

  /** No two adjacent hyphens. */
  predicate NoDoubleDash(s: string) {
    forall i :: 0 <= i < |s| - 1 ==> s[i] != '-' || s[i + 1] != '-'
  }

  /** `.replace(/-+/g, "-")`: every maximal run of "-" becomes one "-". */
  function CollapseDashes(s: string): (r: string)
    ensures s == [] <==> r == []
    ensures s != [] ==> r[0] == s[0]
    decreases |s|
  {
    if s == [] then []
    else if s[0] == '-' then "-" + CollapseDashes(DropDashes(s[1..]))
    else [s[0]] + CollapseDashes(s[1..])
  }

  /** After collapsing no two hyphens are adjacent, and every character
      other than "-" comes from the input. */
  lemma {:induction false} CollapseDashesShape(s: string)
    ensures NoDoubleDash(CollapseDashes(s))
    ensures DrawnFrom(CollapseDashes(s), s)
    decreases |s|
  {
    if s != [] {
      var rest := CollapseDashesCons(s);
      CollapseDashesShape(rest);
      DashConsShape(s[0], CollapseDashes(rest), rest, s);
    }
  }

  /** One step of the collapse: the first character, then the collapse of a
      suffix that does not start with "-" when the first character is one. */
  lemma CollapseDashesCons(s: string) returns (rest: string)
    requires s != []
    ensures CollapseDashes(s) == [s[0]] + CollapseDashes(rest)
    ensures s[0] == '-' ==> rest == [] || rest[0] != '-'
    ensures |rest| < |s| && forall x :: x in rest ==> x in s
  {
    if s[0] == '-' {
      rest := DropDashes(s[1..]);
      assert rest == s[|s| - |rest|..];
    } else {
      rest := s[1..];
    }
  }

  lemma DashConsShape(c: char, r: string, rest: string, s: string)
    requires NoDoubleDash(r) && DrawnFrom(r, rest) && c in s
    requires c == '-' ==> r == [] || r[0] != '-'
    requires forall x :: x in rest ==> x in s
    ensures NoDoubleDash([c] + r)
    ensures DrawnFrom([c] + r, s)
  {
    DrawnFromSuffix(r, rest, s, c);
    var t := [c] + r;
    forall i | 0 <= i < |t| - 1
      ensures t[i] != '-' || t[i + 1] != '-'
    {
      assert t[i + 1] == r[i];
      if i > 0 {
        assert t[i] == r[i - 1];
      }
    }
  }

  /** Without runs of "-" there is nothing to collapse. */
  lemma {:induction false} CollapseDashesFixed(s: string)
    requires NoDoubleDash(s)
    ensures CollapseDashes(s) == s
    decreases |s|
  {
    if s != [] {
      assert NoDoubleDash(s[1..]) by {
        forall i | 0 <= i < |s[1..]| - 1
          ensures s[1..][i] != '-' || s[1..][i + 1] != '-'
        {
          assert s[1..][i] == s[i + 1] && s[1..][i + 1] == s[i + 2];
        }
      }
      if s[0] == '-' {
        assert |s| > 1 ==> s[1] != '-';
        assert DropDashes(s[1..]) == s[1..];
      }
      CollapseDashesFixed(s[1..]);
      assert s == [s[0]] + s[1..];
    }
  }

  /** `.replace(/^-|-$/g, "")`: one leading and one trailing "-" removed. */
  function TrimDash(s: string): (r: string)
    ensures forall i :: 0 <= i < |r| ==> r[i] in s
    ensures NoDoubleDash(s) ==> NoDoubleDash(r) && (r != [] ==> r[0] != '-' && r[|r| - 1] != '-')
    ensures s == [] || (s[0] != '-' && s[|s| - 1] != '-') ==> r == s
  {
    var t := if s != [] && s[0] == '-' then s[1..] else s;
    assert forall c :: c in t ==> c in s;
    if t != [] && t[|t| - 1] == '-' then t[..|t| - 1] else t
  }

  /** The regular-expression chain of `slugify`, applied to lower-cased text. */
  function SlugOfLowered(t: string): string {
    TrimDash(CollapseDashes(CollapseSpaces(KeepAllowed(t))))
  }

  /** `slugify(text)`; `lower` is `String.prototype.toLowerCase`. */
  function Slugify(text: string, lower: string -> string): string {
    SlugOfLowered(lower(text))
  }

  /** Word characters and single hyphens, with no hyphen at either end. */
  predicate IsSlug(s: string) {
    && (forall i :: 0 <= i < |s| ==> IsWordChar(s[i]) || s[i] == '-')
    && NoDoubleDash(s)
    && (s != [] ==> s[0] != '-' && s[|s| - 1] != '-')
  }

  /** Every slug is well formed, and each of its characters other than "-"
      comes from the lower-cased text: a text without capital letters gives
      a slug without capital letters. */
  lemma SlugShape(t: string)
    ensures IsSlug(SlugOfLowered(t))
    ensures forall i :: 0 <= i < |SlugOfLowered(t)| ==> SlugOfLowered(t)[i] == '-' || SlugOfLowered(t)[i] in t
  {
    var a := KeepAllowed(t);
    var b := CollapseSpaces(a);
    var c := CollapseDashes(b);
    var r := TrimDash(c);
    CollapseSpacesShape(a);
    CollapseDashesShape(b);
    forall i | 0 <= i < |r|
      ensures (IsWordChar(r[i]) || r[i] == '-') && (r[i] == '-' || r[i] in t)
    {
      assert r[i] in c;
      var k :| 0 <= k < |c| && c[k] == r[i];
      if r[i] != '-' {
        assert c[k] in b;
        var m :| 0 <= m < |b| && b[m] == r[i];
        assert !IsJsSpace(b[m]);
        assert b[m] in a;
        var n :| 0 <= n < |a| && a[n] == r[i];
        assert Allowed(a[n]) && a[n] in t;
      }
    }
  }

  /** A slug is left unchanged by the chain. */
  lemma SlugFixed(s: string)
    requires IsSlug(s)
    ensures SlugOfLowered(s) == s
  {
    assert KeepAllowed(s) == s by {
      assert forall i :: 0 <= i < |s| ==> Allowed(s[i]);
    }
    assert NoSpaces(s) by {
      forall i | 0 <= i < |s|
        ensures !IsJsSpace(s[i])
      {
        WordCharNotSpace(s[i]);
      }
    }
    CollapseSpacesFixed(s);
    CollapseDashesFixed(s);
    assert TrimDash(s) == s;
  }

  lemma WordCharNotSpace(c: char)
    requires IsWordChar(c) || c == '-'
    ensures !IsJsSpace(c)
  {
  }

  /** `slugify` is idempotent: slugifying a slug gives it back, as long as
      lower-casing leaves the slug alone (it holds only characters that
      lower-casing already produced). */
  lemma SlugifyIdempotent(text: string, lower: string -> string)
    requires lower(Slugify(text, lower)) == Slugify(text, lower)
    ensures Slugify(Slugify(text, lower), lower) == Slugify(text, lower)
  {
    SlugShape(lower(text));
    SlugFixed(Slugify(text, lower));
  }

  // ---------------------------------------------------------------------
  // extractText

  /** A React node as `extractText` sees it. */
  datatype ReactNode =
    | Text(s: string)
    | Number(n: int)
    | Fragment(items: seq<ReactNode>)
    | Element(children: ReactNode)
    | Other

  /** `strings.join("")` */
  function Concat(strings: seq<string>): string {
    if strings == [] then "" else Concat(strings[..|strings| - 1]) + strings[|strings| - 1]
  }

  lemma {:induction false} ConcatAppend(a: seq<string>, b: seq<string>)
    ensures Concat(a + b) == Concat(a) + Concat(b)
    decreases |b|
  {
    if b == [] {
      assert a + b == a;
    } else {
      assert (a + b)[..|a + b| - 1] == a + b[..|b| - 1];
      ConcatAppend(a, b[..|b| - 1]);
    }
  }

  /** `extractText(children)`: strings as they are, numbers through `String`,
      arrays concatenated in order, an element's `props.children`, and ""
      for anything else (null, undefined, booleans). */
  function ExtractText(node: ReactNode): string {
    match node
    case Text(s) => s
    case Number(n) => IntToString(n)
    case Fragment(items) => Concat(seq(|items|, i requires 0 <= i < |items| => ExtractText(items[i])))
    case Element(children) => ExtractText(children)
    case Other => ""
  }

  /** The text of a list of children is the text of its front followed by
      the text of its back. */
  lemma ExtractTextConcat(a: seq<ReactNode>, b: seq<ReactNode>)
    ensures ExtractText(Fragment(a + b)) == ExtractText(Fragment(a)) + ExtractText(Fragment(b))
  {
    var ta := seq(|a|, i requires 0 <= i < |a| => ExtractText(a[i]));
    var tb := seq(|b|, i requires 0 <= i < |b| => ExtractText(b[i]));
    var ab := a + b;
    assert seq(|ab|, i requires 0 <= i < |ab| => ExtractText(ab[i])) == ta + tb;
    ConcatAppend(ta, tb);
  }

  /** Wrapping children in an element or a one-item list keeps their text. */
  lemma ExtractTextTransparent(node: ReactNode)
    ensures ExtractText(Element(node)) == ExtractText(node)
    ensures ExtractText(Fragment([node])) == ExtractText(node)
  {
    var texts := seq(1, i requires 0 <= i < 1 => ExtractText([node][i]));
    assert texts == [ExtractText(node)];
    assert texts[..0] == [];
    assert Concat(texts) == "" + ExtractText(node);
    assert ExtractText(Fragment([node])) == Concat(texts);
  }

  // ---------------------------------------------------------------------
  // Table of contents

  datatype Heading = Heading(id: string, text: string, level: nat)

  /** No two collected headings share an id. */
  predicate DistinctIds(hs: seq<Heading>) {
    forall i, j :: 0 <= i < j < |hs| ==> hs[i].id != hs[j].id
  }

  predicate HasId(hs: seq<Heading>, id: string) {
    exists i :: 0 <= i < |hs| && hs[i].id == id
  }

  /** The ref pair `headingsRef` / `reportedRef`. */
  datatype Tracking = Tracking(headings: seq<Heading>, reported: bool)

  /** A heading rendering: collected unless headings were already reported
      or one with the same id is already there. */
  function Collect(t: Tracking, text: string, level: nat, lower: string -> string): Tracking {
    var id := Slugify(text, lower);
    if !t.reported && !HasId(t.headings, id) then t.(headings := t.headings + [Heading(id, text, level)])
    else t
  }

  /** The effect after a render: the headings are handed over, once, when
      there is a callback and something to report. */
  function Report(t: Tracking, hasCallback: bool): (Tracking, Option<seq<Heading>>) {
    if hasCallback && |t.headings| > 0 && !t.reported then (t.(reported := true), Some(t.headings))
    else (t, None)
  }

  /** Collecting keeps the ids distinct, and every collected heading is
      anchored at the slug of its text. */
  lemma CollectKeepsIdsDistinct(t: Tracking, text: string, level: nat, lower: string -> string)
    requires DistinctIds(t.headings)
    ensures DistinctIds(Collect(t, text, level, lower).headings)
    ensures HasId(Collect(t, text, level, lower).headings, Slugify(text, lower))
            || t.reported
  {
    var id := Slugify(text, lower);
    var r := Collect(t, text, level, lower);
    if !t.reported && !HasId(t.headings, id) {
      assert r.headings[|t.headings|].id == id;
    } else if !t.reported {
      var i :| 0 <= i < |t.headings| && t.headings[i].id == id;
      assert r.headings[i].id == id;
    }
  }

  /** Reporting hands over the collected headings and marks them reported;
      once reported, nothing more is collected and nothing more is reported
      until the markdown changes. */
  lemma ReportedOnce(t: Tracking, hasCallback: bool, text: string, level: nat, lower: string -> string)
    ensures Report(t, hasCallback).1.Some? ==>
      && Report(t, hasCallback).1.value == t.headings && |t.headings| > 0
      && Report(t, hasCallback).0.reported
    ensures t.reported ==> Collect(t, text, level, lower) == t && Report(t, hasCallback) == (t, None)
  {
  }

  /** The collector behind one rendered markdown document. */
  class HeadingCollector {
    var headings: seq<Heading>
    var reported: bool

    ghost predicate Valid()
      reads this
    {
      DistinctIds(headings)
    }

    constructor()
      ensures Valid() && headings == [] && !reported
    {
      headings := [];
      reported := false;
    }

    /** The markdown changed: both refs are reset. */
    method Reset()
      modifies this
      ensures Valid() && headings == [] && !reported
    {
      headings := [];
      reported := false;
    }

    /** A heading component renders `text` at `level`. */
    method RenderHeading(text: string, level: nat, lower: string -> string) returns (id: string)
      requires Valid()
      modifies this
      ensures Valid()
      ensures id == Slugify(text, lower)
      ensures Tracking(headings, reported) == Collect(Tracking(old(headings), old(reported)), text, level, lower)
    {
      id := Slugify(text, lower);
      if !reported {
        if !HasId(headings, id) {
          CollectKeepsIdsDistinct(Tracking(headings, reported), text, level, lower);
          headings := headings + [Heading(id, text, level)];
        }
      }
    }

    /** The effect that runs after every render. */
    method ReportHeadings(hasCallback: bool) returns (delivered: Option<seq<Heading>>)
      requires Valid()
      modifies this
      ensures Valid()
      ensures (Tracking(headings, reported), delivered) == Report(Tracking(old(headings), old(reported)), hasCallback)
    {
      delivered := None;
      if hasCallback && |headings| > 0 && !reported {
        reported := true;
        delivered := Some(headings);
      }
    }
  }
}
