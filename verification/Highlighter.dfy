/** Syntax highlighting of a code block: where the scan stops, which class a word
    gets, when the scan never ends, and why the markup loses nothing of the code. */
module Highlighter {
  import opened Collections
  import opened Strings

  // ----- escaping -----

  function ReplaceAll(s: string, c: char, sub: string): string {
    if s == "" then "" else (if s[0] == c then sub else [s[0]]) + ReplaceAll(s[1..], c, sub)
  }

  /** Three replacements, one after the other, each over the result of the last. */
  function EscapeText(s: string): string {
    ReplaceAll(ReplaceAll(ReplaceAll(s, '&', "&amp;"), '<', "&lt;"), '>', "&gt;")
  }

  function Entity(c: char): string {
    match c
    case '&' => "&amp;"
    case '<' => "&lt;"
    case '>' => "&gt;"
    case _ => [c]
  }

  /** The same in one pass, each character on its own. */
  function EscapeEach(s: string): string {
    if s == "" then "" else Entity(s[0]) + EscapeEach(s[1..])
  }

  /** What a browser makes of the three entities. */
  function Decode(s: string): string {
    if s == "" then ""
    else if StartsWith(s, "&amp;") then "&" + Decode(s[5..])
    else if StartsWith(s, "&lt;") then "<" + Decode(s[4..])
    else if StartsWith(s, "&gt;") then ">" + Decode(s[4..])
    else [s[0]] + Decode(s[1..])
  }

  lemma {:induction false} ReplaceAllConcat(a: string, b: string, c: char, sub: string)
    ensures ReplaceAll(a + b, c, sub) == ReplaceAll(a, c, sub) + ReplaceAll(b, c, sub)
  {
    if a == "" {
      assert a + b == b;
    } else {
      ReplaceAllConcat(a[1..], b, c, sub);
      var first, ra, rb := if a[0] == c then sub else [a[0]], ReplaceAll(a[1..], c, sub), ReplaceAll(b, c, sub);
      assert (a + b)[1..] == a[1..] + b && (a + b)[0] == a[0];
      assert first + (ra + rb) == first + ra + rb;
    }
  }

  lemma {:induction false} NoneReplaced(s: string, c: char, sub: string)
    requires c !in s
    ensures ReplaceAll(s, c, sub) == s
  {
    if s != "" {
      NoneReplaced(s[1..], c, sub);
    }
  }

  lemma OneReplaced(c: char, d: char, sub: string)
    ensures ReplaceAll([c], d, sub) == if c == d then sub else [c]
  {
    assert [c][1..] == "";
  }

  lemma EscapeConcat(a: string, b: string)
    ensures EscapeText(a + b) == EscapeText(a) + EscapeText(b)
  {
    var a1, b1 := ReplaceAll(a, '&', "&amp;"), ReplaceAll(b, '&', "&amp;");
    ReplaceAllConcat(a, b, '&', "&amp;");
    ReplaceAllConcat(a1, b1, '<', "&lt;");
    ReplaceAllConcat(ReplaceAll(a1, '<', "&lt;"), ReplaceAll(b1, '<', "&lt;"), '>', "&gt;");
  }

  lemma EscapeChar(c: char)
    ensures EscapeText([c]) == Entity(c)
  {
    hide ReplaceAll;
    OneReplaced(c, '&', "&amp;");
    NoneReplaced("&amp;", '<', "&lt;");
    NoneReplaced("&amp;", '>', "&gt;");
    OneReplaced(c, '<', "&lt;");
    NoneReplaced("&lt;", '>', "&gt;");
    OneReplaced(c, '>', "&gt;");
  }

  /** In this order the three replacements do not disturb one another. */
  lemma {:induction false} EscapeIsEach(s: string)
    ensures EscapeText(s) == EscapeEach(s)
  {
    if s != "" {
      EscapeIsEach(s[1..]);
      assert s == [s[0]] + s[1..];
      EscapeConcat([s[0]], s[1..]);
      EscapeChar(s[0]);
      hide EscapeText;
    }
  }

  lemma {:induction false} DecodeEscape(s: string)
    ensures Decode(EscapeText(s)) == s
  {
    EscapeIsEach(s);
    if s != "" {
      var rest := EscapeEach(s[1..]);
      EscapeIsEach(s[1..]);
      DecodeEscape(s[1..]);
      DecodeEntity(s[0], rest);
    }
  }

  lemma DecodeEntity(c: char, rest: string)
    ensures Decode(Entity(c) + rest) == [c] + Decode(rest)
  {
    var t := Entity(c) + rest;
    assert |t| == |Entity(c)| + |rest| && t[|Entity(c)|..] == rest && t[0] == Entity(c)[0];
    assert "&amp;"[0] == '&' && "&lt;"[0] == '&' && "&gt;"[0] == '&';
    assert c == '&' ==> t[..5] == "&amp;";
    assert |t| >= 5 ==> t[..5][1] == t[1];
    assert c == '<' ==> t[..4] == "&lt;" && t[1] == 'l' && "&amp;"[1] == 'a';
    assert c == '>' ==> t[..4] == "&gt;" && t[1] == 'g' && "&lt;"[1] == 'l' && "&amp;"[1] == 'a';
  }

  /** Escaping loses nothing. */
  lemma EscapeInjective(a: string, b: string)
    requires EscapeText(a) == EscapeText(b)
    ensures a == b
  {
    DecodeEscape(a);
    DecodeEscape(b);
  }

  lemma {:induction false} EscapeHasNoAngles(s: string)
    ensures '<' !in EscapeText(s) && '>' !in EscapeText(s)
  {
    EscapeIsEach(s);
    if s != "" {
      EscapeHasNoAngles(s[1..]);
      EscapeIsEach(s[1..]);
    }
  }

  // ----- where the scan stops -----

  predicate IsWordChar(c: char) {
    'a' <= c <= 'z' || 'A' <= c <= 'Z' || '0' <= c <= '9' || c == '_'
  }

  predicate StartsWord(c: char) {
    'a' <= c <= 'z' || 'A' <= c <= 'Z' || c == '_' || c == '$'
  }

  predicate IsNumberChar(c: char) {
    IsDigit(c) || c in ".xX_" || 'a' <= c <= 'f' || 'A' <= c <= 'F'
  }

  predicate At(code: string, i: nat, s: string) {
    i + |s| <= |code| && code[i..i + |s|] == s
  }

  function IndexOf(code: string, s: string, from: nat): (r: Option<nat>)
    ensures r.Some? ==> from <= r.value && r.value + |s| <= |code|
    decreases |code| - from
  {
    if from + |s| > |code| then None
    else if At(code, from, s) then Some(from)
    else if from == |code| then None
    else IndexOf(code, s, from + 1)
  }

  predicate HashComments(lang: string) {
    lang == "python" || lang == "bash"
  }

  predicate SlashComments(lang: string) {
    lang == "javascript" || lang == "typescript" || lang == "rust" || lang == "go"
  }

  datatype Kind = LineComment | BlockComment | TripleString | Quoted | Number | Word | Decorator | Other

  function KindAt(code: string, lang: string, i: nat): Kind
    requires i < |code|
  {
    if HashComments(lang) && code[i] == '#' then LineComment
    else if SlashComments(lang) && At(code, i, "//") then LineComment
    else if SlashComments(lang) && At(code, i, "/*") then BlockComment
    else if lang == "python" && (At(code, i, "\"\"\"") || At(code, i, "'''")) then TripleString
    else if code[i] == '"' || code[i] == '\'' || code[i] == '`' then Quoted
    else if IsDigit(code[i]) && (i == 0 || !IsWordChar(code[i - 1])) then Number
    else if StartsWord(code[i]) then Word
    else if code[i] == '@' && lang == "python" then Decorator
    else Other
  }

  function LineEnd(code: string, j: nat): (r: nat)
    requires j <= |code|
    ensures j <= r <= |code| && (r < |code| ==> code[r] == '\n') && forall k :: j <= k < r ==> code[k] != '\n'
    decreases |code| - j
  {
    if j < |code| && code[j] != '\n' then LineEnd(code, j + 1) else j
  }

  /** Past the closing quote; a backslash takes the next character with it, even past
      the end of the code. */
  function QuoteEnd(code: string, q: char, j: nat): (r: nat)
    requires j <= |code| + 1
    ensures j <= r <= |code| + 1
    decreases |code| + 1 - j
  {
    if j >= |code| then j
    else if code[j] == '\\' then QuoteEnd(code, q, j + 2)
    else if code[j] == q then j + 1
    else if q != '`' && code[j] == '\n' then j
    else QuoteEnd(code, q, j + 1)
  }

  function NumberEnd(code: string, j: nat): (r: nat)
    requires j <= |code|
    ensures j <= r <= |code| && (r < |code| ==> !IsNumberChar(code[r])) && forall k :: j <= k < r ==> IsNumberChar(code[k])
    decreases |code| - j
  {
    if j < |code| && IsNumberChar(code[j]) then NumberEnd(code, j + 1) else j
  }

  function WordEnd(code: string, j: nat): (r: nat)
    requires j <= |code|
    ensures j <= r <= |code| && (r < |code| ==> !IsWordChar(code[r])) && forall k :: j <= k < r ==> IsWordChar(code[k])
    decreases |code| - j
  {
    if j < |code| && IsWordChar(code[j]) then WordEnd(code, j + 1) else j
  }

  /** Where the piece that starts at `i` ends, past the end of the code for a string
      cut off after a backslash. */
  function EndOf(code: string, lang: string, i: nat): (r: nat)
    requires i < |code|
    ensures i <= r <= |code| + 1
  {
    match KindAt(code, lang, i)
    case LineComment => LineEnd(code, i)
    case BlockComment =>
      var end := IndexOf(code, "*/", i + 2);
      if end.None? then |code| else end.value + 2
    case TripleString =>
      var end := IndexOf(code, code[i..i + 3], i + 3);
      if end.None? then |code| else end.value + 3
    case Quoted => QuoteEnd(code, code[i], i + 1)
    case Number => NumberEnd(code, i)
    case Word => WordEnd(code, i)
    case Decorator => i + 1
    case Other => i + 1
  }

  /** The scan moves on from everything but a dollar sign it has reached. */
  lemma StuckAtDollar(code: string, lang: string, i: nat)
    requires i < |code|
    ensures EndOf(code, lang, i) == i <==> KindAt(code, lang, i) == Word && code[i] == '$'
    ensures code[i] == '$' ==> KindAt(code, lang, i) == Word
  {
    hide IndexOf;
    assert At(code, i, "//") ==> code[i..i + 2][0] == code[i];
    assert At(code, i, "/*") ==> code[i..i + 2][0] == code[i];
    assert At(code, i, "\"\"\"") ==> code[i..i + 3][0] == code[i];
    assert At(code, i, "'''") ==> code[i..i + 3][0] == code[i];
  }

  // ----- the pieces and their classes -----

  function LastWord(t: string): string {
    if t == "" || IsSpace(t[|t| - 1]) then "" else LastWord(t[..|t| - 1]) + [t[|t| - 1]]
  }

  /** The last word of text, blanks after it ignored. */
  function PreviousWord(text: string): string {
    LastWord(TrimEnd(text))
  }

  function WordClass(lang: string, keywords: set<string>, previous: string, afterAt: bool, w: string): Option<string> {
    if previous == "class" then Some("hl-cls")
    else if previous in ["def", "function", "fn", "func"] then Some("hl-fn")
    else if lang == "python" && afterAt then Some("hl-dec")
    else if w in keywords then Some("hl-kw")
    else None
  }

  /** The class of a piece, from the code alone. */
  function ClassOf(code: string, lang: string, keywords: set<string>, i: nat): (r: Option<string>)
    requires i < |code|
    ensures r.Some? ==> '>' !in r.value
  {
    match KindAt(code, lang, i)
    case LineComment => Some("hl-cmt")
    case BlockComment => Some("hl-cmt")
    case TripleString => Some("hl-str")
    case Quoted => Some("hl-str")
    case Number => Some("hl-num")
    case Word =>
      WordClass(lang, keywords, PreviousWord(EscapeText(code[..i])), i > 0 && code[i - 1] == '@', code[i..WordEnd(code, i)])
    case Decorator => Some("hl-dec")
    case Other => None
  }

  datatype Span = Span(cls: Option<string>, text: string)

  function Show(s: Span): string {
    match s.cls
    case None => EscapeText(s.text)
    case Some(cls) => "<span class=\"" + cls + "\">" + EscapeText(s.text) + "</span>"
  }

  function ShowAll(spans: seq<Span>): string {
    if spans == [] then "" else ShowAll(spans[..|spans| - 1]) + Show(spans[|spans| - 1])
  }

  function TextOf(spans: seq<Span>): string {
    if spans == [] then "" else TextOf(spans[..|spans| - 1]) + spans[|spans| - 1].text
  }

  /** `code.slice(i, j)`. */
  function Piece(code: string, i: nat, j: nat): string
    requires i <= j && i <= |code|
  {
    if j <= |code| then code[i..j] else code[i..]
  }

  /** The pieces of the code from `i` on. */
  function Lexed(code: string, lang: string, keywords: set<string>, i: nat): seq<Span>
    decreases |code| + 1 - i
  {
    if i >= |code| || EndOf(code, lang, i) == i then []
    else
      var j := EndOf(code, lang, i);
      [Span(ClassOf(code, lang, keywords, i), Piece(code, i, j))] + Lexed(code, lang, keywords, j)
  }

  // ----- erasing the markup -----

  function CloseAt(s: string): (r: nat)
    ensures r <= |s| && (r < |s| ==> s[r] == '>') && forall k :: 0 <= k < r ==> s[k] != '>'
  {
    if s == "" || s[0] == '>' then 0 else 1 + CloseAt(s[1..])
  }

  /** `replace(/<[^>]*>/g, '')`. */
  function Erase(s: string): string
    decreases |s|
  {
    if s == "" then ""
    else if s[0] == '<' && CloseAt(s) < |s| then Erase(s[CloseAt(s) + 1..])
    else [s[0]] + Erase(s[1..])
  }

  lemma EraseOne(c: char, rest: string)
    requires c != '<'
    ensures Erase([c] + rest) == [c] + Erase(rest)
  {
    assert ([c] + rest)[1..] == rest;
  }

  lemma {:induction false} EraseText(t: string, rest: string)
    requires '<' !in t
    ensures Erase(t + rest) == t + Erase(rest)
  {
    hide Erase;
    if t == "" {
      assert t + rest == rest && t + Erase(rest) == Erase(rest);
    } else {
      EraseText(t[1..], rest);
      assert t + rest == [t[0]] + (t[1..] + rest);
      EraseOne(t[0], t[1..] + rest);
      assert [t[0]] + (t[1..] + Erase(rest)) == t + Erase(rest);
    }
  }

  lemma EraseTag(tag: string, rest: string)
    requires |tag| > 1 && tag[0] == '<' && tag[|tag| - 1] == '>' && '>' !in tag[..|tag| - 1]
    ensures Erase(tag + rest) == Erase(rest)
  {
    var s := tag + rest;
    assert forall k :: 0 <= k < |tag| - 1 ==> s[k] == tag[..|tag| - 1][k];
    assert s[|tag| - 1] == '>';
    assert CloseAt(s) == |tag| - 1;
    assert s[|tag|..] == rest;
  }

  predicate PlainClass(s: Span) {
    s.cls.Some? ==> '>' !in s.cls.value
  }

  lemma EraseSpan(s: Span, rest: string)
    requires PlainClass(s)
    ensures Erase(Show(s) + rest) == EscapeText(s.text) + Erase(rest)
  {
    var text := EscapeText(s.text);
    EscapeHasNoAngles(s.text);
    hide EscapeText, Erase;
    if s.cls.None? {
      EraseText(text, rest);
    } else {
      var open, close := "<span class=\"" + s.cls.value + "\">", "</span>";
      assert open[..|open| - 1] == "<span class=\"" + s.cls.value + "\"";
      assert close[..6] == "</span";
      assert Show(s) + rest == open + (text + (close + rest));
      EraseTag(open, text + (close + rest));
      EraseText(text, close + rest);
      EraseTag(close, rest);
    }
  }

  /** Without its tags the markup is the escaped text of its pieces. */
  lemma {:induction false} EraseAll(spans: seq<Span>, rest: string)
    requires forall i :: 0 <= i < |spans| ==> PlainClass(spans[i])
    ensures Erase(ShowAll(spans) + rest) == EscapeText(TextOf(spans)) + Erase(rest)
  {
    hide EscapeText, Erase, Show, PlainClass;
    if spans == [] {
      assert "" + rest == rest;
      EscapeNothing();
      assert "" + Erase(rest) == Erase(rest);
    } else {
      var n := |spans| - 1;
      assert forall i :: 0 <= i < n ==> spans[..n][i] == spans[i];
      assert ShowAll(spans) + rest == ShowAll(spans[..n]) + (Show(spans[n]) + rest);
      EraseAll(spans[..n], Show(spans[n]) + rest);
      EraseSpan(spans[n], rest);
      EscapeConcat(TextOf(spans[..n]), spans[n].text);
    }
  }

  lemma EscapeNothing()
    ensures EscapeText("") == ""
  {
  }

  // ----- runs that never end -----

  /** Where the scan stands after `k` rounds. */
  function Position(code: string, lang: string, k: nat): (r: nat)
    ensures r <= |code| + 1
  {
    if k == 0 then 0
    else
      var p := Position(code, lang, k - 1);
      if p < |code| then EndOf(code, lang, p) else p
  }

  ghost predicate Forever(code: string, lang: string) {
    forall k: nat :: Position(code, lang, k) < |code|
  }

  lemma {:induction false} PositionGrows(code: string, lang: string, j: nat, k: nat)
    requires j <= k
    ensures Position(code, lang, j) <= Position(code, lang, k)
  {
    hide EndOf;
    if j < k {
      PositionGrows(code, lang, j, k - 1);
      var p := Position(code, lang, k - 1);
      if p < |code| {
        EndBounds(code, lang, p);
      }
    }
  }

  lemma {:induction false} StandsStill(code: string, lang: string, k: nat, m: nat)
    requires k <= m && Position(code, lang, k) < |code|
    requires EndOf(code, lang, Position(code, lang, k)) == Position(code, lang, k)
    ensures Position(code, lang, m) == Position(code, lang, k)
  {
    hide EndOf;
    if k < m {
      StandsStill(code, lang, k, m - 1);
    }
  }

  lemma StuckForever(code: string, lang: string, k: nat)
    requires Position(code, lang, k) < |code|
    requires EndOf(code, lang, Position(code, lang, k)) == Position(code, lang, k)
    ensures Forever(code, lang)
  {
    hide EndOf;
    forall m: nat ensures Position(code, lang, m) < |code| {
      if m <= k {
        PositionGrows(code, lang, m, k);
      } else {
        StandsStill(code, lang, k, m);
      }
    }
  }

  /** Inside a comment or a string that the scan takes in one piece. */
  ghost predicate InLiteral(code: string, lang: string, p: nat) {
    exists k: nat :: Covers(code, lang, k, p)
  }

  ghost predicate Covers(code: string, lang: string, k: nat, p: nat) {
    var s := Position(code, lang, k);
    s < |code| && s < p < EndOf(code, lang, s) &&
    (var kind := KindAt(code, lang, s);
     kind == LineComment || kind == BlockComment || kind == TripleString || kind == Quoted)
  }

  ghost predicate BareDollar(code: string, lang: string, p: nat) {
    p < |code| && code[p] == '$' && !InLiteral(code, lang, p)
  }

  /** The scan never ends exactly when the code has a dollar sign outside comments and
      strings. */
  lemma ForeverIffBareDollar(code: string, lang: string)
    ensures Forever(code, lang) <==> exists p: nat :: BareDollar(code, lang, p)
  {
    if Forever(code, lang) {
      var k := FirstStuck(code, lang);
      var p := Position(code, lang, k);
      StuckAtDollar(code, lang, p);
      forall m: nat ensures !Covers(code, lang, m, p) {
        NotCovered(code, lang, k, m);
      }
      assert BareDollar(code, lang, p);
    } else {
      var n: nat :| Position(code, lang, n) >= |code|;
      forall p: nat ensures !BareDollar(code, lang, p) {
        if p < |code| && code[p] == '$' {
          Passed(code, lang, p, n);
        }
      }
    }
  }

  lemma NotCovered(code: string, lang: string, k: nat, m: nat)
    requires Position(code, lang, k) < |code|
    ensures !Covers(code, lang, m, Position(code, lang, k))
  {
    hide EndOf, KindAt;
    if m < k {
      PositionGrows(code, lang, m + 1, k);
    } else {
      PositionGrows(code, lang, k, m);
    }
  }

  lemma FirstStuck(code: string, lang: string) returns (k: nat)
    requires Forever(code, lang)
    ensures Position(code, lang, k) < |code|
    ensures EndOf(code, lang, Position(code, lang, k)) == Position(code, lang, k)
  {
    hide EndOf;
    k := 0;
    while EndOf(code, lang, Position(code, lang, k)) != Position(code, lang, k)
      invariant k <= Position(code, lang, k) < |code|
      decreases |code| - k
    {
      assert Position(code, lang, k + 1) < |code|;
      EndBounds(code, lang, Position(code, lang, k));
      k := k + 1;
    }
  }

  lemma EndBounds(code: string, lang: string, i: nat)
    requires i < |code|
    ensures i <= EndOf(code, lang, i)
  {
  }

  /** A scan that gets past a dollar sign took it as part of a comment or string. */
  lemma {:induction false} Passed(code: string, lang: string, p: nat, n: nat)
    requires p < |code| && code[p] == '$' && Position(code, lang, n) > p
    ensures InLiteral(code, lang, p)
  {
    hide EndOf, KindAt, InLiteral;
    var s := Position(code, lang, n - 1);
    if s > p {
      Passed(code, lang, p, n - 1);
    } else {
      NextPosition(code, lang, n - 1);
      StuckAtDollar(code, lang, p);
      OnlyLiteralsHold(code, lang, s, p);
      CoveredLiteral(code, lang, n - 1, p);
    }
  }

  lemma CoveredLiteral(code: string, lang: string, k: nat, p: nat)
    requires Covers(code, lang, k, p)
    ensures InLiteral(code, lang, p)
  {
    hide Covers;
  }

  lemma OnlyLiteralsHold(code: string, lang: string, s: nat, p: nat)
    requires s < p < |code| && code[p] == '$' && p < EndOf(code, lang, s)
    ensures var kind := KindAt(code, lang, s);
            kind == LineComment || kind == BlockComment || kind == TripleString || kind == Quoted
  {
    hide KindAt;
  }

  lemma DollarNeverEnds(lang: string)
    ensures Forever("$", lang)
  {
    hide Forever, EndOf, KindAt, Position;
    ForeverIffBareDollar("$", lang);
    assert BareDollar("$", lang, 0);
  }

  lemma NoDollarEnds(code: string, lang: string)
    requires '$' !in code
    ensures !Forever(code, lang)
  {
    hide Forever, InLiteral;
    ForeverIffBareDollar(code, lang);
    forall p: nat ensures !BareDollar(code, lang, p) {
    }
  }

  // ----- the scan -----

  method SkipLine(code: string, i: nat) returns (j: nat)
    requires i <= |code|
    ensures j == LineEnd(code, i)
  {
    j := i;
    while j < |code| && code[j] != '\n'
      invariant i <= j <= |code| && LineEnd(code, i) == LineEnd(code, j)
    {
      j := j + 1;
    }
  }

  method SkipQuoted(code: string, i: nat) returns (j: nat)
    requires i < |code|
    ensures j == QuoteEnd(code, code[i], i + 1)
  {
    var q := code[i];
    j := i + 1;
    while j < |code|
      invariant j <= |code| + 1 && QuoteEnd(code, q, i + 1) == QuoteEnd(code, q, j)
    {
      if code[j] == '\\' {
        j := j + 2;
        continue;
      }
      if code[j] == q {
        j := j + 1;
        return;
      }
      if q != '`' && code[j] == '\n' {
        return;
      }
      j := j + 1;
    }
  }

  method SkipNumber(code: string, i: nat) returns (j: nat)
    requires i <= |code|
    ensures j == NumberEnd(code, i)
  {
    j := i;
    while j < |code| && IsNumberChar(code[j])
      invariant i <= j <= |code| && NumberEnd(code, i) == NumberEnd(code, j)
    {
      j := j + 1;
    }
  }

  method SkipWord(code: string, i: nat) returns (j: nat)
    requires i <= |code|
    ensures j == WordEnd(code, i)
  {
    j := i;
    while j < |code| && IsWordChar(code[j])
      invariant i <= j <= |code| && WordEnd(code, i) == WordEnd(code, j)
    {
      j := j + 1;
    }
  }

  /** The pieces so far cover the code up to `i`, and no further than its end. */
  predicate CoversUpTo(code: string, spans: seq<Span>, i: nat) {
    TextOf(spans) == if i <= |code| then code[..i] else code
  }

  ghost predicate AllPlain(spans: seq<Span>) {
    forall k :: 0 <= k < |spans| ==> PlainClass(spans[k])
  }

  /** One round of the scan: the class and the end of the piece at `i`. The last word
      before it is read off the markup so far, its tags erased. */
  method NextPiece(code: string, lang: string, keywords: set<string>, i: nat, out: string, ghost spans: seq<Span>)
    returns (cls: Option<string>, j: nat)
    requires i < |code| && out == ShowAll(spans) && CoversUpTo(code, spans, i) && AllPlain(spans)
    ensures cls == ClassOf(code, lang, keywords, i) && j == EndOf(code, lang, i)
  {
    hide ShowAll, EscapeText, PreviousWord, LineEnd, QuoteEnd, NumberEnd, WordEnd, IndexOf, WordClass, At, AllPlain;
    hide IsDigit, IsWordChar, StartsWord, HashComments, SlashComments;
    AtFits(code, i);
    cls := None;
    if HashComments(lang) && code[i] == '#' {
      j := SkipLine(code, i);
      cls := Some("hl-cmt");
    } else if SlashComments(lang) && At(code, i, "//") {
      j := SkipLine(code, i);
      cls := Some("hl-cmt");
    } else if SlashComments(lang) && At(code, i, "/*") {
      var end := IndexOf(code, "*/", i + 2);
      j := if end.None? then |code| else end.value + 2;
      cls := Some("hl-cmt");
    } else if lang == "python" && (At(code, i, "\"\"\"") || At(code, i, "'''")) {
      var end := IndexOf(code, code[i..i + 3], i + 3);
      j := if end.None? then |code| else end.value + 3;
      cls := Some("hl-str");
    } else if code[i] == '"' || code[i] == '\'' || code[i] == '`' {
      j := SkipQuoted(code, i);
      cls := Some("hl-str");
    } else if IsDigit(code[i]) && (i == 0 || !IsWordChar(code[i - 1])) {
      j := SkipNumber(code, i);
      cls := Some("hl-num");
    } else if StartsWord(code[i]) {
      j := SkipWord(code, i);
      EraseSoFar(spans);
      var previous := PreviousWord(Erase(out));
      cls := WordClass(lang, keywords, previous, i > 0 && code[i - 1] == '@', code[i..j]);
    } else if code[i] == '@' && lang == "python" {
      j := i + 1;
      cls := Some("hl-dec");
    } else {
      j := i + 1;
    }
  }

  lemma AtFits(code: string, i: nat)
    ensures At(code, i, "\"\"\"") || At(code, i, "'''") ==> i + 3 <= |code|
  {
  }

  lemma EraseSoFar(spans: seq<Span>)
    requires AllPlain(spans)
    ensures Erase(ShowAll(spans)) == EscapeText(TextOf(spans))
  {
    hide ShowAll, EscapeText, TextOf;
    EraseAll(spans, "");
    assert ShowAll(spans) + "" == ShowAll(spans);
    assert EscapeText(TextOf(spans)) + "" == EscapeText(TextOf(spans));
  }

  lemma AddSpan(code: string, lang: string, keywords: set<string>, spans: seq<Span>, i: nat)
    requires i < |code| && CoversUpTo(code, spans, i) && AllPlain(spans) && EndOf(code, lang, i) != i
    ensures var j := EndOf(code, lang, i);
            var next := spans + [Span(ClassOf(code, lang, keywords, i), Piece(code, i, j))];
            && CoversUpTo(code, next, j) && AllPlain(next)
            && ShowAll(next) == ShowAll(spans) + Show(next[|spans|])
            && Lexed(code, lang, keywords, i) == [next[|spans|]] + Lexed(code, lang, keywords, j)
  {
    hide *;
    var j := EndOf(code, lang, i);
    var span := Span(ClassOf(code, lang, keywords, i), Piece(code, i, j));
    EndBounds(code, lang, i);
    ClassIsPlain(code, lang, keywords, i);
    SpanIsPlain(span);
    PlainAppend(spans, span);
    ShowAppend(spans, span);
    CoversMore(code, spans, span, i, j);
    LexedStep(code, lang, keywords, i);
  }

  lemma PlainAppend(spans: seq<Span>, span: Span)
    requires AllPlain(spans) && PlainClass(span)
    ensures AllPlain(spans + [span])
  {
    hide PlainClass;
  }

  lemma ShowAppend(spans: seq<Span>, span: Span)
    ensures ShowAll(spans + [span]) == ShowAll(spans) + Show(span)
    ensures TextOf(spans + [span]) == TextOf(spans) + span.text
    ensures (spans + [span])[|spans|] == span
  {
    hide Show;
    assert (spans + [span])[..|spans|] == spans;
  }

  lemma CoversMore(code: string, spans: seq<Span>, span: Span, i: nat, j: nat)
    requires i < |code| && i <= j && CoversUpTo(code, spans, i) && span.text == Piece(code, i, j)
    ensures CoversUpTo(code, spans + [span], j)
  {
    hide ShowAll, TextOf, Piece;
    ShowAppend(spans, span);
    PieceJoins(code, i, j);
  }

  lemma PieceJoins(code: string, i: nat, j: nat)
    requires i <= |code| && i <= j
    ensures code[..i] + Piece(code, i, j) == if j <= |code| then code[..j] else code
  {
    if j <= |code| {
      assert code[..i] + code[i..j] == code[..j];
    } else {
      assert code[..i] + code[i..] == code;
    }
  }

  lemma LexedStep(code: string, lang: string, keywords: set<string>, i: nat)
    requires i < |code| && EndOf(code, lang, i) != i
    ensures var j := EndOf(code, lang, i);
      Lexed(code, lang, keywords, i) ==
        [Span(ClassOf(code, lang, keywords, i), Piece(code, i, j))] + Lexed(code, lang, keywords, j)
  {
    hide EndOf, ClassOf, Piece;
  }

  lemma ClassIsPlain(code: string, lang: string, keywords: set<string>, i: nat)
    requires i < |code|
    ensures ClassOf(code, lang, keywords, i).Some? ==> '>' !in ClassOf(code, lang, keywords, i).value
  {
  }

  /** Highlights the code, unless the scan stands still and never ends (None). */
  method Hilight(code: string, lang: string, keywords: set<string>) returns (r: Option<string>)
    ensures r.None? <==> Forever(code, lang)
    ensures r.Some? ==> r.value == ShowAll(Lexed(code, lang, keywords, 0))
  {
    hide *;
    var out, i := "", 0;
    ghost var spans: seq<Span>, k: nat := [], 0;
    Begin(code, lang);
    while i < |code|
      invariant i <= |code| + 1 && i == Position(code, lang, k)
      invariant out == ShowAll(spans) && CoversUpTo(code, spans, i) && AllPlain(spans)
      invariant Lexed(code, lang, keywords, 0) == spans + Lexed(code, lang, keywords, i)
      decreases |code| + 1 - i
    {
      var cls, j := NextPiece(code, lang, keywords, i, out, spans);
      EndBounds(code, lang, i);
      if j == i {
        StuckForever(code, lang, k);
        return None;
      }
      AddSpan(code, lang, keywords, spans, i);
      NextPosition(code, lang, k);
      ghost var more := Lexed(code, lang, keywords, j);
      var span := Span(cls, Piece(code, i, j));
      assert spans + ([span] + more) == spans + [span] + more;
      spans := spans + [span];
      out := out + Show(span);
      i, k := j, k + 1;
    }
    Finished(code, lang, keywords, k);
    assert spans + [] == spans;
    return Some(out);
  }

  lemma Begin(code: string, lang: string)
    ensures Position(code, lang, 0) == 0 && ShowAll([]) == "" && AllPlain([]) && CoversUpTo(code, [], 0)
  {
  }

  lemma NextPosition(code: string, lang: string, k: nat)
    requires Position(code, lang, k) < |code|
    ensures Position(code, lang, k + 1) == EndOf(code, lang, Position(code, lang, k)) <= |code| + 1
  {
    hide EndOf;
    EndBounds(code, lang, Position(code, lang, k));
  }

  lemma Finished(code: string, lang: string, keywords: set<string>, k: nat)
    requires Position(code, lang, k) >= |code|
    ensures !Forever(code, lang) && Lexed(code, lang, keywords, Position(code, lang, k)) == []
  {
    hide Position;
  }

  /** When the scan ends, erasing the tags and reading the entities gives back the code,
      character for character. */
  lemma MarkupIsLossless(code: string, lang: string, keywords: set<string>)
    requires !Forever(code, lang)
    ensures Decode(Erase(ShowAll(Lexed(code, lang, keywords, 0)))) == code
  {
    hide *;
    var n := Ends(code, lang);
    LexedText(code, lang, keywords, 0, n);
    Begin(code, lang);
    EraseSoFar(Lexed(code, lang, keywords, 0));
    DecodeEscape(code);
    assert code[0..] == code;
  }

  lemma Ends(code: string, lang: string) returns (n: nat)
    requires !Forever(code, lang)
    ensures Position(code, lang, n) >= |code|
  {
    hide Position;
    n :| Position(code, lang, n) >= |code|;
  }

  lemma {:induction false} LexedText(code: string, lang: string, keywords: set<string>, k: nat, n: nat)
    requires k <= n && Position(code, lang, n) >= |code|
    ensures var i := Position(code, lang, k);
            && AllPlain(Lexed(code, lang, keywords, i))
            && TextOf(Lexed(code, lang, keywords, i)) == if i <= |code| then code[i..] else ""
    decreases n - k
  {
    hide EndOf, ClassOf, TextOf, PlainClass;
    var i := Position(code, lang, k);
    if i >= |code| {
      Begin(code, lang);
    } else {
      var j := EndOf(code, lang, i);
      EndBounds(code, lang, i);
      if j == i {
        StandsStill(code, lang, k, n);
      } else {
        LexedText(code, lang, keywords, k + 1, n);
        NextPosition(code, lang, k);
        ClassIsPlain(code, lang, keywords, i);
        var span := Span(ClassOf(code, lang, keywords, i), Piece(code, i, j));
        SpanIsPlain(span);
        TextOfCons(span, Lexed(code, lang, keywords, j));
        assert j <= |code| ==> code[i..j] + code[j..] == code[i..];
      }
    }
  }

  lemma SpanIsPlain(s: Span)
    requires s.cls.Some? ==> '>' !in s.cls.value
    ensures PlainClass(s)
  {
  }

  lemma TextOfParts(spans: seq<Span>)
    ensures TextOf(spans) ==
      if spans == [] then [] else TextOf(spans[..|spans| - 1]) + spans[|spans| - 1].text
  {
  }

  lemma {:induction false} TextOfCons(s: Span, spans: seq<Span>)
    ensures TextOf([s] + spans) == s.text + TextOf(spans)
  {
    hide *;
    TextOfParts([s] + spans);
    TextOfParts(spans);
    if spans == [] {
      TextOfParts([]);
      assert ([s] + spans)[..0] == [];
    } else {
      var front, last := spans[..|spans| - 1], spans[|spans| - 1];
      TextOfCons(s, front);
      assert ([s] + spans)[..|spans|] == [s] + front;
      assert s.text + TextOf(front) + last.text == s.text + (TextOf(front) + last.text);
    }
  }
}
