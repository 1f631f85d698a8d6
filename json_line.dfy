/** The landing page's one-line JSON highlighter: a line is cut into coloured
    tokens by trying, at the front of what is left, a key, a string, a
    number, a keyword and finally a single character. The regular
    expressions are written out as scanners over the line. */
module JsonLine {
  import opened Wrappers
  import opened Strings

  /** The colour class a token is shown with. */
  datatype Kind = Punctuation | KeyName | StringValue | NumberValue | Keyword

  /** One `<span>`: its React key, its colour class and its text. */
  datatype Token = Token(key: nat, kind: Kind, text: string)

  datatype Piece = Piece(kind: Kind, text: string)

  predicate AllSpaces(t: string) {
    forall k :: 0 <= k < |t| ==> IsJsSpace(t[k])
  }

  /** The end of the run of whitespace starting at `i`. */
  function SkipSpaces(s: string, i: nat): (j: nat)
    requires i <= |s|
    ensures i <= j <= |s|
    decreases |s| - i
  {
    if i < |s| && IsJsSpace(s[i]) then SkipSpaces(s, i + 1) else i
  }

  /** `\s*` takes every whitespace character up to the first other one. */
  lemma {:induction false} SkipSpacesSound(s: string, i: nat)
    requires i <= |s|
    ensures forall k :: i <= k < SkipSpaces(s, i) ==> IsJsSpace(s[k])
    ensures SkipSpaces(s, i) == |s| || !IsJsSpace(s[SkipSpaces(s, i)])
    decreases |s| - i
  {
    if i < |s| && IsJsSpace(s[i]) {
      SkipSpacesSound(s, i + 1);
    }
  }

  /** The end of the run of decimal digits starting at `i`. */
  function SkipDigits(s: string, i: nat): (j: nat)
    requires i <= |s|
    ensures i <= j <= |s|
    decreases |s| - i
  {
    if i < |s| && IsDigit(s[i]) then SkipDigits(s, i + 1) else i
  }

  /** `\d+` takes every digit up to the first other character. */
  lemma {:induction false} SkipDigitsSound(s: string, i: nat)
    requires i <= |s|
    ensures forall k :: i <= k < SkipDigits(s, i) ==> IsDigit(s[k])
    ensures SkipDigits(s, i) == |s| || !IsDigit(s[SkipDigits(s, i)])
    decreases |s| - i
  {
    if i < |s| && IsDigit(s[i]) {
      SkipDigitsSound(s, i + 1);
    }
  }

  // ---------------------------------------------------------------------
  // Quoted text

  /** `(?:[^"\\]|\\.)*`: characters other than a quote or a backslash, and
      backslash pairs whose second character is not a line terminator. */
  predicate EscapedBody(b: string)
    decreases |b|
  {
    || b == []
    || (b[0] != '"' && b[0] != '\\' && EscapedBody(b[1..]))
    || (|b| >= 2 && b[0] == '\\' && !IsLineTerminator(b[1]) && EscapedBody(b[2..]))
  }

  /** How far the body pattern reaches from `i`: it stops at a quote, at a
      backslash it cannot pair, or at the end of the line. */
  function ScanBody(s: string, i: nat): (j: nat)
    requires i <= |s|
    ensures i <= j <= |s|
    decreases |s| - i
  {
    if i == |s| || s[i] == '"' then i
    else if s[i] == '\\' then
      if i + 1 < |s| && !IsLineTerminator(s[i + 1]) then ScanBody(s, i + 2) else i
    else ScanBody(s, i + 1)
  }

  /** The scan covers a body and stops only at a quote, at a backslash it
      cannot pair, or at the end of the line. */
  lemma {:induction false} ScanBodySound(s: string, i: nat)
    requires i <= |s|
    ensures EscapedBody(s[i..ScanBody(s, i)])
    ensures var j := ScanBody(s, i);
      j < |s| ==> s[j] == '"' || (s[j] == '\\' && (j + 1 == |s| || IsLineTerminator(s[j + 1])))
    decreases |s| - i
  {
    var j := ScanBody(s, i);
    if i == |s| || s[i] == '"' {
    } else if s[i] == '\\' {
      if i + 1 < |s| && !IsLineTerminator(s[i + 1]) {
        ScanBodySound(s, i + 2);
        assert s[i..j][2..] == s[i + 2..j];
      }
    } else {
      ScanBodySound(s, i + 1);
      assert s[i..j][1..] == s[i + 1..j];
    }
  }

  /** A body followed by a quote is exactly what the scan finds: the closing
      quote is the first unescaped one. */
  lemma {:induction false} ScanBodyUnique(s: string, i: nat, j: nat)
    requires i <= j < |s| && s[j] == '"'
    requires EscapedBody(s[i..j])
    ensures ScanBody(s, i) == j
    decreases j - i
  {
    if i < j {
      var b := s[i..j];
      assert b[0] == s[i];
      if s[i] == '\\' {
        assert b[1] == s[i + 1];
        assert b[2..] == s[i + 2..j];
        ScanBodyUnique(s, i + 2, j);
      } else {
        assert b[1..] == s[i + 1..j];
        ScanBodyUnique(s, i + 1, j);
      }
    }
  }

  // ---------------------------------------------------------------------
  // The four patterns

  /** The three groups of `/^(\s*")((?:[^"\\]|\\.)*)(":\s*)/`: the first
      ends at `open`, the key body runs to `close`, the last ends at `end`. */
  datatype KeyParts = KeyParts(open: nat, close: nat, end: nat)

  /** `s` starts with whitespace, a quote, a body ending at `c`, a quote and
      a colon. */
  ghost predicate KeyShaped(s: string, o: nat, c: nat) {
    && 0 < o <= c && c + 1 < |s|
    && AllSpaces(s[..o - 1]) && s[o - 1] == '"'
    && EscapedBody(s[o..c]) && s[c] == '"' && s[c + 1] == ':'
  }

  /** The key pattern. */
  function KeyMatch(s: string): (r: Option<KeyParts>)
    ensures r.Some? ==> 0 < r.value.open <= r.value.close && r.value.close + 2 <= r.value.end <= |s|
  {
    var w := SkipSpaces(s, 0);
    if w < |s| && s[w] == '"' then
      var b := ScanBody(s, w + 1);
      if b + 1 < |s| && s[b] == '"' && s[b + 1] == ':' then Some(KeyParts(w + 1, b, SkipSpaces(s, b + 2)))
      else None
    else None
  }

  /** A key match has the shape of a key, and the whitespace after the colon
      is taken as far as it goes. */
  lemma KeyMatchSound(s: string)
    requires KeyMatch(s).Some?
    ensures var k := KeyMatch(s).value;
      && KeyShaped(s, k.open, k.close)
      && AllSpaces(s[k.close + 2..k.end])
      && (k.end == |s| || !IsJsSpace(s[k.end]))
  {
    var k := KeyMatch(s).value;
    SkipSpacesSound(s, 0);
    ScanBodySound(s, k.open);
    SkipSpacesSound(s, k.close + 2);
    var pre := s[..k.open - 1];
    assert forall i :: 0 <= i < |pre| ==> pre[i] == s[i];
    var t := s[k.close + 2..k.end];
    assert forall i :: 0 <= i < |t| ==> t[i] == s[k.close + 2 + i];
  }

  /** The key pattern fails only when no prefix has the shape of a key. */
  lemma KeyMatchComplete(s: string, o: nat, c: nat)
    requires KeyShaped(s, o, c)
    ensures KeyMatch(s) == Some(KeyParts(o, c, SkipSpaces(s, c + 2)))
  {
    var w := SkipSpaces(s, 0);
    SkipSpacesSound(s, 0);
    assert forall k :: 0 <= k < o - 1 ==> s[..o - 1][k] == s[k];
    assert w == o - 1;
    ScanBodyUnique(s, o, c);
  }

  /** `s` starts with a quoted string whose closing quote is at `c`. */
  ghost predicate StringShaped(s: string, c: nat) {
    0 < c < |s| && s[0] == '"' && EscapedBody(s[1..c]) && s[c] == '"'
  }

  /** `/^("(?:[^"\\]|\\.)*")/`: the length of the quoted prefix. */
  function StringMatch(s: string): (r: Option<nat>)
    ensures r.Some? ==> 2 <= r.value <= |s|
  {
    if |s| > 0 && s[0] == '"' then
      var b := ScanBody(s, 1);
      if b < |s| && s[b] == '"' then Some(b + 1) else None
    else None
  }

  /** A string match is a quoted string. */
  lemma StringMatchSound(s: string)
    requires StringMatch(s).Some?
    ensures StringShaped(s, StringMatch(s).value - 1)
  {
    ScanBodySound(s, 1);
  }

  /** The string pattern fails only when no prefix is a quoted string, and
      it stops at the first closing quote. */
  lemma StringMatchComplete(s: string, c: nat)
    requires StringShaped(s, c)
    ensures StringMatch(s) == Some(c + 1)
  {
    ScanBodyUnique(s, 1, c);
  }

  /** Digits with at most one ".", which is neither first nor last. */
  predicate UnsignedNumber(t: string) {
    && |t| > 0 && IsDigit(t[0]) && IsDigit(t[|t| - 1])
    && (forall k :: 0 <= k < |t| ==> IsDigit(t[k]) || t[k] == '.')
    && (forall k, l :: 0 <= k < l < |t| && t[k] == '.' ==> t[l] != '.')
  }

  /** `-?\d+(?:\.\d+)?`: no exponent. */
  predicate NumberText(t: string) {
    UnsignedNumber(t) || (|t| > 0 && t[0] == '-' && UnsignedNumber(t[1..]))
  }

  /** A digit, or "-" and a digit. */
  predicate NumberStart(s: string) {
    (|s| > 0 && IsDigit(s[0])) || (|s| > 1 && s[0] == '-' && IsDigit(s[1]))
  }

  /** `/^(-?\d+(?:\.\d+)?)/`: the length of the numeral at the front, as long
      as possible. */
  function NumberMatch(s: string): (r: Option<nat>)
    ensures r.Some? ==> 0 < r.value <= |s|
  {
    var i0 := if |s| > 0 && s[0] == '-' then 1 else 0;
    var i1 := SkipDigits(s, i0);
    if i1 == i0 then None
    else if i1 + 1 < |s| && s[i1] == '.' && IsDigit(s[i1 + 1]) then Some(SkipDigits(s, i1 + 1))
    else Some(i1)
  }

  /** The number pattern matches exactly when the line starts like a number;
      what it takes is a numeral, and it takes every digit it can. */
  lemma NumberMatchSound(s: string)
    ensures NumberMatch(s).Some? <==> NumberStart(s)
    ensures NumberMatch(s).Some? ==> NumberText(s[..NumberMatch(s).value])
    ensures NumberMatch(s).Some? ==> NumberMatch(s).value == |s| || !IsDigit(s[NumberMatch(s).value])
  {
    var i0 := if |s| > 0 && s[0] == '-' then 1 else 0;
    var i1 := SkipDigits(s, i0);
    SkipDigitsSound(s, i0);
    if i1 != i0 {
      if i1 + 1 < |s| && s[i1] == '.' && IsDigit(s[i1 + 1]) {
        SkipDigitsSound(s, i1 + 1);
        NumberWithFraction(s, i0, i1, SkipDigits(s, i1 + 1));
      } else {
        NumberWithoutFraction(s, i0, i1);
      }
    }
  }

  lemma NumberWithoutFraction(s: string, i0: nat, i1: nat)
    requires i0 == (if |s| > 0 && s[0] == '-' then 1 else 0)
    requires i0 < i1 <= |s| && forall k :: i0 <= k < i1 ==> IsDigit(s[k])
    ensures NumberText(s[..i1])
  {
    var t := s[i0..i1];
    assert forall k :: 0 <= k < |t| ==> t[k] == s[i0 + k];
    assert UnsignedNumber(t);
    if i0 == 1 {
      assert s[..i1][1..] == t;
    } else {
      assert s[..i1] == t;
    }
  }

  lemma NumberWithFraction(s: string, i0: nat, i1: nat, n: nat)
    requires i0 == (if |s| > 0 && s[0] == '-' then 1 else 0)
    requires i0 < i1 && i1 + 1 < n <= |s| && s[i1] == '.'
    requires forall k :: i0 <= k < i1 ==> IsDigit(s[k])
    requires forall k :: i1 + 1 <= k < n ==> IsDigit(s[k])
    ensures NumberText(s[..n])
  {
    var t := s[i0..n];
    assert forall k :: 0 <= k < |t| ==> t[k] == s[i0 + k];
    assert forall k :: 0 <= k < |t| && t[k] == '.' ==> k == i1 - i0;
    assert UnsignedNumber(t);
    if i0 == 1 {
      assert s[..n][1..] == t;
    } else {
      assert s[..n] == t;
    }
  }

  /** `/^(true|false|null)/` */
  function KeywordMatch(s: string): (r: Option<nat>)
    ensures r.Some? ==> 0 < r.value <= |s|
  {
    if StartsWith(s, "true") then Some(4)
    else if StartsWith(s, "false") then Some(5)
    else if StartsWith(s, "null") then Some(4)
    else None
  }

  /** The keyword pattern takes one of the three keywords, and fails only
      when the line starts with none of them. */
  lemma KeywordMatchSound(s: string)
    ensures KeywordMatch(s).Some? ==> s[..KeywordMatch(s).value] in ["true", "false", "null"]
    ensures KeywordMatch(s).None? <==> !StartsWith(s, "true") && !StartsWith(s, "false") && !StartsWith(s, "null")
  {
  }

  // ---------------------------------------------------------------------
  // One iteration and the whole line

  function Texts(ps: seq<Piece>): string {
    if ps == [] then [] else Texts(ps[..|ps| - 1]) + ps[|ps| - 1].text
  }

  /** What a piece of each kind looks like. */
  ghost predicate PieceShaped(p: Piece) {
    match p.kind
    case Punctuation => p.text != []
    case KeyName => EscapedBody(p.text)
    case StringValue => |p.text| >= 2 && p.text[0] == '"' && p.text[|p.text| - 1] == '"' && EscapedBody(p.text[1..|p.text| - 1])
    case NumberValue => NumberText(p.text)
    case Keyword => p.text in ["true", "false", "null"]
  }

  /** The pieces one iteration pushes and how much of the line it uses. */
  datatype StepResult = StepResult(pieces: seq<Piece>, consumed: nat)

  /** The three pieces of a key match. */
  function KeyStep(s: string, k: KeyParts): StepResult
    requires 0 < k.open <= k.close && k.close + 2 <= k.end <= |s|
  {
    StepResult([Piece(Punctuation, s[..k.open]), Piece(KeyName, s[k.open..k.close]), Piece(Punctuation, s[k.close..k.end])], k.end)
  }

  /** A match of one of the single-token patterns: `n` characters of kind `kind`. */
  function SingleStep(kind: Kind, s: string, n: nat): StepResult
    requires 0 < n <= |s|
  {
    StepResult([Piece(kind, s[..n])], n)
  }

  lemma StringPieceShaped(s: string, n: nat)
    requires StringMatch(s) == Some(n)
    ensures PieceShaped(Piece(StringValue, s[..n]))
  {
    StringMatchSound(s);
    assert s[..n][1..n - 1] == s[1..n - 1];
  }

  /** One pass of the loop body on a non-empty `remaining`: the first pattern
      that matches, in the order key, string, number, keyword, else the first
      character. It always uses up a non-empty prefix. */
  function Step(s: string): (r: StepResult)
    requires s != []
    ensures 0 < r.consumed <= |s|
  {
    match KeyMatch(s)
    case Some(k) => KeyStep(s, k)
    case None =>
      match StringMatch(s)
      case Some(n) => SingleStep(StringValue, s, n)
      case None =>
        match NumberMatch(s)
        case Some(n) => SingleStep(NumberValue, s, n)
        case None =>
          match KeywordMatch(s)
          case Some(n) => SingleStep(Keyword, s, n)
          case None => SingleStep(Punctuation, s, 1)
  }

  /** The pieces of one step spell the prefix it uses up. */
  lemma StepSpells(s: string)
    requires s != []
    ensures Texts(Step(s).pieces) == s[..Step(s).consumed]
  {
    var ps := Step(s).pieces;
    match KeyMatch(s)
    case Some(k) =>
      assert Texts(ps) == Texts(ps[..2]) + ps[2].text;
      assert ps[..2][..1] == [ps[0]];
      assert Texts(ps[..2][..1]) == Texts([]) + ps[0].text;
      assert Texts(ps[..2]) == Texts(ps[..2][..1]) + ps[1].text;
      assert s[..k.end] == s[..k.open] + s[k.open..k.close] + s[k.close..k.end];
    case None =>
      assert |ps| == 1;
      assert Texts(ps) == Texts([]) + ps[0].text;
  }

  /** Each piece of one step has the shape of its kind. */
  lemma StepShapes(s: string)
    requires s != []
    ensures forall i :: 0 <= i < |Step(s).pieces| ==> PieceShaped(Step(s).pieces[i])
  {
    match KeyMatch(s)
    case Some(k) => KeyMatchSound(s);
    case None =>
      match StringMatch(s)
      case Some(n) => StringPieceShaped(s, n);
      case None =>
        match NumberMatch(s)
        case Some(n) => NumberMatchSound(s);
        case None =>
          match KeywordMatch(s)
          case Some(n) => KeywordMatchSound(s);
          case None =>
  }

  /** The matchers are tried in order: a key whenever the line starts like
      one; otherwise a string; otherwise a number; otherwise a keyword;
      otherwise the first character alone. */
  lemma StepPriority(s: string)
    requires s != []
    ensures forall o: nat, c: nat :: KeyShaped(s, o, c) ==>
      |Step(s).pieces| == 3 && Step(s).pieces[1] == Piece(KeyName, s[o..c])
    ensures KeyMatch(s).None? && (exists c: nat :: StringShaped(s, c)) ==>
      |Step(s).pieces| == 1 && Step(s).pieces[0].kind == StringValue
    ensures KeyMatch(s).None? && StringMatch(s).None? && NumberStart(s) ==>
      |Step(s).pieces| == 1 && Step(s).pieces[0].kind == NumberValue
    ensures KeyMatch(s).None? && StringMatch(s).None? && !NumberStart(s) && KeywordMatch(s).Some? ==>
      |Step(s).pieces| == 1 && Step(s).pieces[0].kind == Keyword
    ensures KeyMatch(s).None? && StringMatch(s).None? && !NumberStart(s) && KeywordMatch(s).None? ==>
      Step(s) == StepResult([Piece(Punctuation, [s[0]])], 1)
  {
    NumberMatchSound(s);
    forall o: nat, c: nat | KeyShaped(s, o, c)
      ensures |Step(s).pieces| == 3 && Step(s).pieces[1] == Piece(KeyName, s[o..c])
    {
      KeyMatchComplete(s, o, c);
    }
    if KeyMatch(s).None? && exists c: nat :: StringShaped(s, c) {
      var c: nat :| StringShaped(s, c);
      StringMatchComplete(s, c);
    }
    if KeyMatch(s).None? && StringMatch(s).None? && !NumberStart(s) && KeywordMatch(s).None? {
      assert s[..1] == [s[0]];
    }
  }

  /** The tokens for the pieces, keyed from `next` on (`keyIdx++`). */
  function Numbered(ps: seq<Piece>, next: nat): (r: seq<Token>)
    ensures |r| == |ps|
    ensures forall i :: 0 <= i < |r| ==> r[i] == Token(next + i, ps[i].kind, ps[i].text)
  {
    seq(|ps|, i requires 0 <= i < |ps| => Token(next + i, ps[i].kind, ps[i].text))
  }

  /** The tokens of `s`, keyed from `next` on: what the loop pushes from
      the top of its body. The matchers are tried one function at a time,
      in the source's order. */
  function Tokenize(s: string, next: nat): seq<Token>
    decreases |s|, 4
  {
    if s == [] then [] else TryKey(s, next)
  }

  function TryKey(s: string, next: nat): seq<Token>
    requires s != []
    decreases |s|, 3
  {
    match KeyMatch(s)
    case Some(k) =>
      [Token(next, Punctuation, s[..k.open]), Token(next + 1, KeyName, s[k.open..k.close]),
       Token(next + 2, Punctuation, s[k.close..k.end])] + Tokenize(s[k.end..], next + 3)
    case None => TryString(s, next)
  }

  function TryString(s: string, next: nat): seq<Token>
    requires s != []
    decreases |s|, 2
  {
    match StringMatch(s)
    case Some(n) => [Token(next, StringValue, s[..n])] + Tokenize(s[n..], next + 1)
    case None => TryNumber(s, next)
  }

  function TryNumber(s: string, next: nat): seq<Token>
    requires s != []
    decreases |s|, 1
  {
    match NumberMatch(s)
    case Some(n) => [Token(next, NumberValue, s[..n])] + Tokenize(s[n..], next + 1)
    case None => TryKeyword(s, next)
  }

  function TryKeyword(s: string, next: nat): seq<Token>
    requires s != []
    decreases |s|, 0
  {
    match KeywordMatch(s)
    case Some(n) => [Token(next, Keyword, s[..n])] + Tokenize(s[n..], next + 1)
    case None => [Token(next, Punctuation, [s[0]])] + Tokenize(s[1..], next + 1)
  }

  /** The tokens one step pushes, matcher by matcher. */
  lemma StepTokens(s: string, next: nat)
    requires s != []
    ensures KeyMatch(s).Some? ==>
      var k := KeyMatch(s).value;
      && Step(s).consumed == k.end
      && Numbered(Step(s).pieces, next) ==
           [Token(next, Punctuation, s[..k.open]), Token(next + 1, KeyName, s[k.open..k.close]),
            Token(next + 2, Punctuation, s[k.close..k.end])]
    ensures KeyMatch(s).None? && StringMatch(s).Some? ==>
      && Step(s).consumed == StringMatch(s).value
      && Numbered(Step(s).pieces, next) == [Token(next, StringValue, s[..StringMatch(s).value])]
    ensures KeyMatch(s).None? && StringMatch(s).None? && NumberMatch(s).Some? ==>
      && Step(s).consumed == NumberMatch(s).value
      && Numbered(Step(s).pieces, next) == [Token(next, NumberValue, s[..NumberMatch(s).value])]
    ensures KeyMatch(s).None? && StringMatch(s).None? && NumberMatch(s).None? && KeywordMatch(s).Some? ==>
      && Step(s).consumed == KeywordMatch(s).value
      && Numbered(Step(s).pieces, next) == [Token(next, Keyword, s[..KeywordMatch(s).value])]
    ensures KeyMatch(s).None? && StringMatch(s).None? && NumberMatch(s).None? && KeywordMatch(s).None? ==>
      && Step(s).consumed == 1
      && Numbered(Step(s).pieces, next) == [Token(next, Punctuation, [s[0]])]
  {
    if KeyMatch(s).None? && StringMatch(s).None? && NumberMatch(s).None? && KeywordMatch(s).None? {
      assert s[..1] == [s[0]];
    }
  }

  /** One pass of the loop: the tokens of `Step`, then the rest of the line. */
  lemma TokenizeStep(s: string, next: nat)
    requires s != []
    ensures Tokenize(s, next) == Numbered(Step(s).pieces, next) + Tokenize(s[Step(s).consumed..], next + |Step(s).pieces|)
  {
    StepTokens(s, next);
    assert Tokenize(s, next) == TryKey(s, next);
    if KeyMatch(s).None? {
      assert TryKey(s, next) == TryString(s, next);
      if StringMatch(s).None? {
        assert TryString(s, next) == TryNumber(s, next);
        if NumberMatch(s).None? {
          assert TryNumber(s, next) == TryKeyword(s, next);
        }
      }
    }
  }

  /** The tokens of a line that starts with a key. */
  lemma KeyFirst(s: string, next: nat, k: KeyParts)
    requires KeyMatch(s) == Some(k)
    ensures Tokenize(s, next) ==
      [Token(next, Punctuation, s[..k.open]), Token(next + 1, KeyName, s[k.open..k.close]),
       Token(next + 2, Punctuation, s[k.close..k.end])] + Tokenize(s[k.end..], next + 3)
  {
    assert Tokenize(s, next) == TryKey(s, next);
  }

  /** The tokens of a line that starts with a string but not a key. */
  lemma StringFirst(s: string, next: nat, n: nat)
    requires KeyMatch(s).None? && StringMatch(s) == Some(n)
    ensures Tokenize(s, next) == [Token(next, StringValue, s[..n])] + Tokenize(s[n..], next + 1)
  {
    assert Tokenize(s, next) == TryKey(s, next) == TryString(s, next);
  }

  /** The tokens of a line that starts with a number but not a key or a string. */
  lemma NumberFirst(s: string, next: nat, n: nat)
    requires KeyMatch(s).None? && StringMatch(s).None? && NumberMatch(s) == Some(n)
    ensures Tokenize(s, next) == [Token(next, NumberValue, s[..n])] + Tokenize(s[n..], next + 1)
  {
    assert Tokenize(s, next) == TryKey(s, next) == TryString(s, next) == TryNumber(s, next);
  }

  /** The tokens of a line that starts with a keyword and nothing earlier in the order. */
  lemma KeywordFirst(s: string, next: nat, n: nat)
    requires KeyMatch(s).None? && StringMatch(s).None? && NumberMatch(s).None? && KeywordMatch(s) == Some(n)
    ensures Tokenize(s, next) == [Token(next, Keyword, s[..n])] + Tokenize(s[n..], next + 1)
  {
    assert Tokenize(s, next) == TryKey(s, next) == TryString(s, next) == TryNumber(s, next) == TryKeyword(s, next);
  }

  /** The tokens of a line no matcher accepts: its first character alone. */
  lemma CharFirst(s: string, next: nat)
    requires s != []
    requires KeyMatch(s).None? && StringMatch(s).None? && NumberMatch(s).None? && KeywordMatch(s).None?
    ensures Tokenize(s, next) == [Token(next, Punctuation, [s[0]])] + Tokenize(s[1..], next + 1)
  {
    assert Tokenize(s, next) == TryKey(s, next) == TryString(s, next) == TryNumber(s, next) == TryKeyword(s, next);
  }

  /** Moving the tokens of one pass from the rest of the line onto `tokens`
      keeps the whole. */
  lemma Shift(tokens: seq<Token>, pushed: seq<Token>, rest: seq<Token>, whole: seq<Token>)
    requires tokens + (pushed + rest) == whole
    ensures (tokens + pushed) + rest == whole
  {
  }

  /** `JsonLine({ line })`: the loop over `remaining`. */
  method Highlight(line: string) returns (tokens: seq<Token>)
    ensures tokens == Tokenize(line, 0)
  {
    tokens := [];
    var remaining := line;
    var keyIdx: nat := 0;
    while |remaining| > 0
      invariant tokens + Tokenize(remaining, keyIdx) == Tokenize(line, 0)
      decreases |remaining|
    {
      var keyMatch := KeyMatch(remaining);
      if keyMatch.Some? {
        var k := keyMatch.value;
        var pushed := [Token(keyIdx, Punctuation, remaining[..k.open]),
                       Token(keyIdx + 1, KeyName, remaining[k.open..k.close]),
                       Token(keyIdx + 2, Punctuation, remaining[k.close..k.end])];
        KeyFirst(remaining, keyIdx, k);
        Shift(tokens, pushed, Tokenize(remaining[k.end..], keyIdx + 3), Tokenize(line, 0));
        tokens := tokens + pushed;
        keyIdx := keyIdx + 3;
        remaining := remaining[k.end..];
        continue;
      }

      var strMatch := StringMatch(remaining);
      if strMatch.Some? {
        var pushed := [Token(keyIdx, StringValue, remaining[..strMatch.value])];
        StringFirst(remaining, keyIdx, strMatch.value);
        Shift(tokens, pushed, Tokenize(remaining[strMatch.value..], keyIdx + 1), Tokenize(line, 0));
        tokens := tokens + pushed;
        keyIdx := keyIdx + 1;
        remaining := remaining[strMatch.value..];
        continue;
      }

      var numMatch := NumberMatch(remaining);
      if numMatch.Some? {
        var pushed := [Token(keyIdx, NumberValue, remaining[..numMatch.value])];
        NumberFirst(remaining, keyIdx, numMatch.value);
        Shift(tokens, pushed, Tokenize(remaining[numMatch.value..], keyIdx + 1), Tokenize(line, 0));
        tokens := tokens + pushed;
        keyIdx := keyIdx + 1;
        remaining := remaining[numMatch.value..];
        continue;
      }

      var boolMatch := KeywordMatch(remaining);
      if boolMatch.Some? {
        var pushed := [Token(keyIdx, Keyword, remaining[..boolMatch.value])];
        KeywordFirst(remaining, keyIdx, boolMatch.value);
        Shift(tokens, pushed, Tokenize(remaining[boolMatch.value..], keyIdx + 1), Tokenize(line, 0));
        tokens := tokens + pushed;
        keyIdx := keyIdx + 1;
        remaining := remaining[boolMatch.value..];
        continue;
      }

      var pushed := [Token(keyIdx, Punctuation, [remaining[0]])];
      CharFirst(remaining, keyIdx);
      Shift(tokens, pushed, Tokenize(remaining[1..], keyIdx + 1), Tokenize(line, 0));
      tokens := tokens + pushed;
      keyIdx := keyIdx + 1;
      remaining := remaining[1..];
    }
  }

  // ---------------------------------------------------------------------
  // Properties of the whole line

  function TokenTexts(ts: seq<Token>): string {
    if ts == [] then [] else TokenTexts(ts[..|ts| - 1]) + ts[|ts| - 1].text
  }

  lemma {:induction false} TokenTextsAppend(a: seq<Token>, b: seq<Token>)
    ensures TokenTexts(a + b) == TokenTexts(a) + TokenTexts(b)
    decreases |b|
  {
    if b == [] {
      assert a + b == a;
    } else {
      assert (a + b)[..|a + b| - 1] == a + b[..|b| - 1];
      TokenTextsAppend(a, b[..|b| - 1]);
    }
  }

  lemma {:induction false} NumberedTexts(ps: seq<Piece>, next: nat)
    ensures TokenTexts(Numbered(ps, next)) == Texts(ps)
    decreases |ps|
  {
    if ps != [] {
      var init := ps[..|ps| - 1];
      NumberedTexts(init, next);
      assert Numbered(ps, next)[..|ps| - 1] == Numbered(init, next);
    }
  }

  /** Every token has the shape of its kind. */
  ghost predicate TokensShaped(ts: seq<Token>) {
    forall i :: 0 <= i < |ts| ==> PieceShaped(Piece(ts[i].kind, ts[i].text))
  }

  lemma NumberedShaped(ps: seq<Piece>, next: nat)
    requires forall i :: 0 <= i < |ps| ==> PieceShaped(ps[i])
    ensures TokensShaped(Numbered(ps, next))
  {
    var ts := Numbered(ps, next);
    forall i | 0 <= i < |ts|
      ensures PieceShaped(Piece(ts[i].kind, ts[i].text))
    {
      assert Piece(ts[i].kind, ts[i].text) == ps[i];
    }
  }

  lemma ShapedAppend(a: seq<Token>, b: seq<Token>)
    requires TokensShaped(a) && TokensShaped(b)
    ensures TokensShaped(a + b)
  {
    forall i | 0 <= i < |a + b|
      ensures PieceShaped(Piece((a + b)[i].kind, (a + b)[i].text))
    {
      if i >= |a| {
        assert (a + b)[i] == b[i - |a|];
      }
    }
  }

  /** The keys run `next`, `next + 1`, ... */
  predicate KeyedFrom(ts: seq<Token>, next: nat) {
    forall i :: 0 <= i < |ts| ==> ts[i].key == next + i
  }

  lemma KeyedAppend(a: seq<Token>, b: seq<Token>, next: nat)
    requires KeyedFrom(a, next) && KeyedFrom(b, next + |a|)
    ensures KeyedFrom(a + b, next)
  {
    forall i | 0 <= i < |a + b|
      ensures (a + b)[i].key == next + i
    {
      if i >= |a| {
        assert (a + b)[i] == b[i - |a|];
      }
    }
  }

  /** One pass of the loop, seen from the whole line: some tokens, keyed
      from `next`, spelling a non-empty prefix, then the tokens of the rest. */
  lemma OnePass(s: string, next: nat) returns (head: seq<Token>, n: nat)
    requires s != []
    ensures 0 < n <= |s| && head != []
    ensures Tokenize(s, next) == head + Tokenize(s[n..], next + |head|)
    ensures TokenTexts(head) == s[..n]
    ensures KeyedFrom(head, next)
    ensures TokensShaped(head)
  {
    var st := Step(s);
    head := Numbered(st.pieces, next);
    n := st.consumed;
    TokenizeStep(s, next);
    StepSpells(s);
    NumberedTexts(st.pieces, next);
    StepShapes(s);
    NumberedShaped(st.pieces, next);
    assert |st.pieces| > 0 by {
      assert |Texts(st.pieces)| > 0;
    }
  }

  /** Concatenating the token texts in order gives back the line. */
  lemma {:induction false} TokenizeRoundTrip(s: string, next: nat)
    ensures TokenTexts(Tokenize(s, next)) == s
    decreases |s|
  {
    if s != [] {
      var head, n := OnePass(s, next);
      var rest := Tokenize(s[n..], next + |head|);
      TokenizeRoundTrip(s[n..], next + |head|);
      TokenTextsAppend(head, rest);
      assert s == s[..n] + s[n..];
    }
  }

  /** An empty line has no tokens, and any other line has some. */
  lemma TokenizeEmpty(s: string, next: nat)
    ensures s == [] <==> Tokenize(s, next) == []
  {
    if s != [] {
      var head, n := OnePass(s, next);
    }
  }

  /** The tokens are keyed `next`, `next + 1`, ... in order, so React keys
      never repeat. */
  lemma {:induction false} TokenizeKeys(s: string, next: nat)
    ensures KeyedFrom(Tokenize(s, next), next)
    decreases |s|
  {
    if s != [] {
      var head, n := OnePass(s, next);
      TokenizeKeys(s[n..], next + |head|);
      KeyedAppend(head, Tokenize(s[n..], next + |head|), next);
    }
  }

  /** Every token has the shape of its kind: string tokens are quoted with
      no unescaped quote inside, number tokens have no exponent, keywords
      are `true`, `false` or `null`. */
  lemma {:induction false} TokenizeShapes(s: string, next: nat)
    ensures TokensShaped(Tokenize(s, next))
    decreases |s|
  {
    if s != [] {
      var head, n := OnePass(s, next);
      TokenizeShapes(s[n..], next + |head|);
      ShapedAppend(head, Tokenize(s[n..], next + |head|));
    }
  }
}
