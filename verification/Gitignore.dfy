/** One `.gitignore` file: from a line of text through glob tokens to a regular
    expression, what the search of that expression means, and which rule decides. */
module Gitignore {
  import opened Collections
  import opened Strings

  // ----- glob tokens and what they stand for -----

  /** `Dirs` is a `**` with the slash that follows it. */
  datatype Token = Lit(c: char) | Question | Star | DoubleStar | Dirs

  /** The first token of a line and how much of the line it takes. */
  function Head(line: string): (r: (Token, nat))
    requires line != ""
    ensures 0 < r.1 <= |line|
  {
    if StartsWith(line, "**/") then (Dirs, 3)
    else if StartsWith(line, "**") then (DoubleStar, 2)
    else if line[0] == '*' then (Star, 1)
    else if line[0] == '?' then (Question, 1)
    else (Lit(line[0]), 1)
  }

  function Tokens(line: string): seq<Token> {
    if line == "" then [] else [Head(line).0] + Tokens(line[Head(line).1..])
  }

  /** What one token may stand for; for `Dirs`, nothing or directories with the
      slash after them. A newline in a name is matched by the other wildcards only. */
  predicate Stands(token: Token, s: string) {
    match token
    case Lit(c) => s == [c]
    case Question => |s| == 1 && s[0] != '/'
    case Star => '/' !in s
    case DoubleStar => OneLine(s)
    case Dirs => s == "" || (|s| > 1 && s[|s| - 1] == '/' && OneLine(s[..|s| - 1]))
  }

  predicate GlobMatches(tokens: seq<Token>, s: string) {
    if tokens == [] then s == ""
    else exists k :: 0 <= k <= |s| && Stands(tokens[0], s[..k]) && GlobMatches(tokens[1..], s[k..])
  }

  // ----- regular expressions -----

  datatype Class = Just(c: char) | NotSlash | Dot

  datatype Regex =
    | Empty
    | One(cls: Class)
    | Repeat(body: Regex)
    | Maybe(body: Regex)
    | Then(first: Regex, second: Regex)
    | Either(left: Regex, right: Regex)
    | Start
    | End

  predicate InClass(cls: Class, c: char) {
    match cls
    case Just(d) => c == d
    case NotSlash => c != '/'
    case Dot => c != '\n'
  }

  /** The expression can match exactly `t[i..j]` where it stands in `t`. `$` also
      matches before a newline that ends the text. */
  predicate MatchesAt(r: Regex, t: string, i: nat, j: nat)
    requires i <= j <= |t|
    decreases r, j - i
  {
    match r
    case Empty => i == j
    case One(cls) => j == i + 1 && InClass(cls, t[i])
    case Repeat(body) => i == j || exists k :: i < k <= j && MatchesAt(body, t, i, k) && MatchesAt(r, t, k, j)
    case Maybe(body) => i == j || MatchesAt(body, t, i, j)
    case Then(first, second) => exists k :: i <= k <= j && MatchesAt(first, t, i, k) && MatchesAt(second, t, k, j)
    case Either(left, right) => MatchesAt(left, t, i, j) || MatchesAt(right, t, i, j)
    case Start => i == j == 0
    case End => i == j && (i == |t| || (i == |t| - 1 && t[i] == '\n'))
  }

  predicate Search(r: Regex, t: string) {
    exists i, j :: 0 <= i <= j <= |t| && MatchesAt(r, t, i, j)
  }

  // ----- compiling -----

  const SLASH := One(Just('/'))

  function Fragment(token: Token): Regex {
    match token
    case Lit(c) => One(Just(c))
    case Question => One(NotSlash)
    case Star => Repeat(One(NotSlash))
    case DoubleStar => Repeat(One(Dot))
    case Dirs => Maybe(Then(Then(One(Dot), Repeat(One(Dot))), SLASH))
  }

  function Fragments(tokens: seq<Token>): seq<Regex> {
    if tokens == [] then [] else [Fragment(tokens[0])] + Fragments(tokens[1..])
  }

  function Joined(parts: seq<Regex>): Regex {
    if parts == [] then Empty else Then(parts[0], Joined(parts[1..]))
  }

  /** The fragments of a pattern, read off the line from left to right. */
  method CompileGlob(line: string) returns (parts: seq<Regex>)
    ensures parts == Fragments(Tokens(line))
  {
    hide Fragments, Tokens;
    parts := [];
    var i := 0;
    assert line[0..] == line;
    while i < |line|
      invariant 0 <= i <= |line|
      invariant Fragments(Tokens(line)) == parts + Fragments(Tokens(line[i..]))
    {
      ghost var rest, before := line[i..], parts;
      TokensStep(rest);
      if StartsWith(line[i..], "**/") {
        parts := parts + [Maybe(Then(Then(One(Dot), Repeat(One(Dot))), SLASH))];
        i := i + 3;
      } else if StartsWith(line[i..], "**") {
        parts := parts + [Repeat(One(Dot))];
        i := i + 2;
      } else if line[i] == '*' {
        parts := parts + [Repeat(One(NotSlash))];
        i := i + 1;
      } else if line[i] == '?' {
        parts := parts + [One(NotSlash)];
        i := i + 1;
      } else {
        parts := parts + [One(Just(line[i]))];
        i := i + 1;
      }
      assert parts == before + [Fragment(Head(rest).0)] && line[i..] == rest[Head(rest).1..];
    }
    assert line[|line|..] == "";
    NoFragments();
  }

  lemma NoFragments()
    ensures Fragments(Tokens("")) == []
  {
  }

  lemma TokensStep(line: string)
    requires line != ""
    ensures Fragments(Tokens(line)) == [Fragment(Head(line).0)] + Fragments(Tokens(line[Head(line).1..]))
  {
    hide Head;
    assert Tokens(line)[1..] == Tokens(line[Head(line).1..]);
  }

  // ----- compiling keeps the meaning -----

  lemma {:induction false} RepeatIsRun(cls: Class, t: string, i: nat, j: nat)
    requires i <= j <= |t|
    ensures MatchesAt(Repeat(One(cls)), t, i, j) <==> forall k :: i <= k < j ==> InClass(cls, t[k])
    decreases j - i
  {
    var r := Repeat(One(cls));
    if i < j {
      RepeatIsRun(cls, t, i + 1, j);
      assert MatchesAt(One(cls), t, i, i + 1) <==> InClass(cls, t[i]);
      assert MatchesAt(r, t, i, j) <==>
             exists k :: i < k <= j && MatchesAt(One(cls), t, i, k) && MatchesAt(r, t, k, j);
    }
  }

  lemma RunsInClass(cls: Class, t: string, i: nat, j: nat)
    requires i <= j <= |t|
    ensures cls == NotSlash ==> ((forall k :: i <= k < j ==> InClass(cls, t[k])) <==> '/' !in t[i..j])
    ensures cls == Dot ==> ((forall k :: i <= k < j ==> InClass(cls, t[k])) <==> OneLine(t[i..j]))
  {
    assert forall k :: i <= k < j ==> t[k] == t[i..j][k - i] && t[i..j][k - i] in t[i..j];
  }

  /** A fragment matches exactly what its token stands for. */
  lemma FragmentMeans(token: Token, t: string, i: nat, j: nat)
    requires i <= j <= |t|
    ensures MatchesAt(Fragment(token), t, i, j) <==> Stands(token, t[i..j])
  {
    match token
    case Lit(c) => assert |t[i..j]| == 1 ==> t[i..j] == [t[i]];
    case Question => assert |t[i..j]| == 1 ==> t[i..j] == [t[i]];
    case Star =>
      RepeatIsRun(NotSlash, t, i, j);
      RunsInClass(NotSlash, t, i, j);
    case DoubleStar =>
      RepeatIsRun(Dot, t, i, j);
      RunsInClass(Dot, t, i, j);
    case Dirs =>
      DirsMeans(t, i, j);
      assert i < j ==> t[i..j][..j - i - 1] == t[i..j - 1];
  }

  lemma DirsMeans(t: string, i: nat, j: nat)
    requires i <= j <= |t|
    ensures MatchesAt(Fragment(Dirs), t, i, j) <==> i == j || (j - i > 1 && t[j - 1] == '/' && OneLine(t[i..j - 1]))
  {
    var some := Then(One(Dot), Repeat(One(Dot)));
    forall b: nat | i <= b <= |t| ensures MatchesAt(some, t, i, b) <==> i < b && OneLine(t[i..b]) {
      SomeMeans(t, i, b);
    }
    var body := Then(some, SLASH);
    if i < j {
      assert MatchesAt(SLASH, t, j - 1, j) <==> t[j - 1] == '/';
      assert MatchesAt(body, t, i, j) <==>
             exists k :: i <= k <= j && MatchesAt(some, t, i, k) && MatchesAt(SLASH, t, k, j);
      assert MatchesAt(some, t, i, j - 1) <==> i < j - 1 && OneLine(t[i..j - 1]);
    }
  }

  lemma SomeMeans(t: string, i: nat, j: nat)
    requires i <= j <= |t|
    ensures MatchesAt(Then(One(Dot), Repeat(One(Dot))), t, i, j) <==> i < j && OneLine(t[i..j])
  {
    if i < j {
      RepeatIsRun(Dot, t, i + 1, j);
      RunsInClass(Dot, t, i + 1, j);
      assert t[i..j] == [t[i]] + t[i + 1..j];
      assert OneLine(t[i..j]) <==> t[i] != '\n' && OneLine(t[i + 1..j]);
      assert MatchesAt(One(Dot), t, i, i + 1) <==> t[i] != '\n';
      assert MatchesAt(Then(One(Dot), Repeat(One(Dot))), t, i, j) <==>
             exists k :: i <= k <= j && MatchesAt(One(Dot), t, i, k) && MatchesAt(Repeat(One(Dot)), t, k, j);
    }
  }

  lemma {:induction false} GlobMeans(tokens: seq<Token>, t: string, i: nat, j: nat)
    requires i <= j <= |t|
    ensures MatchesAt(Joined(Fragments(tokens)), t, i, j) <==> GlobMatches(tokens, t[i..j])
    decreases |tokens|
  {
    if tokens == [] {
    } else {
      var s := t[i..j];
      var first, rest := Fragment(tokens[0]), Joined(Fragments(tokens[1..]));
      JoinedStep(tokens);
      forall k | i <= k <= j
        ensures MatchesAt(first, t, i, k) <==> Stands(tokens[0], s[..k - i])
        ensures MatchesAt(rest, t, k, j) <==> GlobMatches(tokens[1..], s[k - i..])
      {
        FragmentMeans(tokens[0], t, i, k);
        GlobMeans(tokens[1..], t, k, j);
        assert t[i..k] == s[..k - i] && t[k..j] == s[k - i..];
      }
      hide Stands, Fragment, Fragments, Joined;
      if GlobMatches(tokens, s) {
        var k :| 0 <= k <= |s| && Stands(tokens[0], s[..k]) && GlobMatches(tokens[1..], s[k..]);
        assert MatchesAt(first, t, i, i + k);
      }
    }
  }

  lemma JoinedStep(tokens: seq<Token>)
    requires tokens != []
    ensures Joined(Fragments(tokens)) == Then(Fragment(tokens[0]), Joined(Fragments(tokens[1..])))
  {
    assert Fragments(tokens)[1..] == Fragments(tokens[1..]);
  }

  // ----- rules -----

  datatype Rule = Rule(anchored: bool, tokens: seq<Token>, negation: bool, dirOnly: bool)
  datatype Compiled = Compiled(regex: Regex, negation: bool, dirOnly: bool)

  function Pattern(rule: Rule): Regex {
    var end := Either(SLASH, End);
    var glob := Joined(Fragments(rule.tokens));
    if rule.anchored then Then(Start, Then(glob, end))
    else Then(Either(Start, SLASH), Then(glob, end))
  }

  function CompiledRule(rule: Rule): Compiled {
    Compiled(Pattern(rule), rule.negation, rule.dirOnly)
  }

  predicate StartsPart(t: string, i: nat, anchored: bool)
    requires i <= |t|
  {
    i == 0 || (!anchored && t[i - 1] == '/')
  }

  /** At the end of a component, or before a newline that ends the path. */
  predicate EndsPart(t: string, j: nat)
    requires j <= |t|
  {
    j == |t| || t[j] == '/' || (j == |t| - 1 && t[j] == '\n')
  }

  /** The glob matches whole components of the path, one or several in a row; an
      anchored one only from the first. */
  predicate Selects(rule: Rule, path: string) {
    exists i, j :: 0 <= i <= j <= |path| && SelectsPart(rule, path, i, j)
  }

  predicate SelectsPart(rule: Rule, path: string, i: nat, j: nat)
    requires i <= j <= |path|
  {
    StartsPart(path, i, rule.anchored) && EndsPart(path, j) && GlobMatches(rule.tokens, path[i..j])
  }

  /** Searching with the compiled expression finds exactly what the glob selects. */
  lemma CompiledMeans(rule: Rule, path: string)
    ensures Search(Pattern(rule), path) <==> Selects(rule, path)
  {
    if Search(Pattern(rule), path) {
      var i, j :| 0 <= i <= j <= |path| && MatchesAt(Pattern(rule), path, i, j);
      MatchSelects(rule, path, i, j);
    }
    if Selects(rule, path) {
      var i, j :| 0 <= i <= j <= |path| && SelectsPart(rule, path, i, j);
      SelectionMatches(rule, path, i, j);
    }
  }

  lemma Split(first: Regex, second: Regex, t: string, i: nat, j: nat) returns (k: nat)
    requires i <= j <= |t| && MatchesAt(Then(first, second), t, i, j)
    ensures i <= k <= j && MatchesAt(first, t, i, k) && MatchesAt(second, t, k, j)
  {
    k :| i <= k <= j && MatchesAt(first, t, i, k) && MatchesAt(second, t, k, j);
  }

  lemma MatchSelects(rule: Rule, path: string, i: nat, j: nat)
    requires i <= j <= |path| && MatchesAt(Pattern(rule), path, i, j)
    ensures Selects(rule, path)
  {
    var glob, end := Joined(Fragments(rule.tokens)), Either(SLASH, End);
    var start := if rule.anchored then Start else Either(Start, SLASH);
    hide Fragments, Joined, GlobMatches;
    var a := Split(start, Then(glob, end), path, i, j);
    var b := Split(glob, end, path, a, j);
    GlobMeans(rule.tokens, path, a, b);
    assert MatchesAt(SLASH, path, i, a) ==> path[a - 1] == '/';
    assert StartsPart(path, a, rule.anchored);
    assert MatchesAt(SLASH, path, b, j) ==> path[b] == '/';
    assert MatchesAt(End, path, b, j) ==> b == |path| || (b == |path| - 1 && path[b] == '\n');
    assert EndsPart(path, b);
    assert SelectsPart(rule, path, a, b);
  }

  lemma SelectionMatches(rule: Rule, path: string, i: nat, j: nat)
    requires i <= j <= |path| && SelectsPart(rule, path, i, j)
    ensures Search(Pattern(rule), path)
  {
    var glob, end := Joined(Fragments(rule.tokens)), Either(SLASH, End);
    var start := if rule.anchored then Start else Either(Start, SLASH);
    GlobMeans(rule.tokens, path, i, j);
    hide Fragments, Joined, GlobMatches;
    var a := if i == 0 then 0 else i - 1;
    var b := if j == |path| || path[j] != '/' then j else j + 1;
    assert MatchesAt(start, path, a, i);
    assert MatchesAt(end, path, j, b);
    assert MatchesAt(Then(glob, end), path, i, b);
    assert MatchesAt(Then(start, Then(glob, end)), path, a, b);
  }

  /** A rule that selects a directory selects everything below it, unless the directory's
      name ends in a newline, before which `$` matches too. */
  lemma SelectsBelow(rule: Rule, dir: string, below: string)
    requires Selects(rule, dir) && (dir == "" || dir[|dir| - 1] != '\n')
    ensures Selects(rule, dir + "/" + below)
  {
    var i, j :| 0 <= i <= j <= |dir| && SelectsPart(rule, dir, i, j);
    var path := dir + "/" + below;
    assert path[i..j] == dir[i..j];
    assert SelectsPart(rule, path, i, j);
  }

  // ----- reading a line -----

  /** Python's `str.isspace`, for the characters `str.strip` removes. */
  predicate IsBlank(c: char) {
    '\t' <= c <= '\r' || '\U{1C}' <= c <= ' ' || c == '\U{85}' || c == '\U{A0}' || c == '\U{1680}' ||
    '\U{2000}' <= c <= '\U{200A}' || c == '\U{2028}' || c == '\U{2029}' || c == '\U{202F}' || c == '\U{205F}' ||
    c == '\U{3000}'
  }

  function StripLeft(s: string): string {
    if s != "" && IsBlank(s[0]) then StripLeft(s[1..]) else s
  }

  function StripRight(s: string): string {
    if s != "" && IsBlank(s[|s| - 1]) then StripRight(s[..|s| - 1]) else s
  }

  function Strip(s: string): string {
    StripRight(StripLeft(s))
  }

  function DropSlashes(s: string): string {
    if s != "" && s[|s| - 1] == '/' then DropSlashes(s[..|s| - 1]) else s
  }

  function ParseLine(raw: string): Option<Rule> {
    var line := Strip(raw);
    if line == "" || line[0] == '#' then None
    else if line[0] == '!' then ParseGlob(Strip(line[1..]), true)
    else ParseGlob(line, false)
  }

  function ParseGlob(line: string, negation: bool): Option<Rule> {
    if line == "" then None
    else
      var dirOnly := line[|line| - 1] == '/';
      var line := if dirOnly then line[..|line| - 1] else line;
      if line == "" then None
      else
        var anchored := line[0] == '/' || '/' in DropSlashes(line);
        var line := if line[0] == '/' then line[1..] else line;
        Some(Rule(anchored, Tokens(line), negation, dirOnly))
  }

  method CompilePattern(raw: string) returns (r: Option<Compiled>)
    ensures var rule := ParseLine(raw); r == if rule.None? then None else Some(CompiledRule(rule.value))
  {
    hide Fragments, Tokens, Strip, DropSlashes, Joined;
    var line := Strip(raw);
    if line == "" || line[0] == '#' {
      return None;
    }
    var negation := line[0] == '!';
    if negation {
      line := Strip(line[1..]);
    }
    if line == "" {
      return None;
    }
    var dirOnly := line[|line| - 1] == '/';
    if dirOnly {
      line := line[..|line| - 1];
    }
    if line == "" {
      return None;
    }
    var anchored := line[0] == '/' || '/' in DropSlashes(line);
    if line[0] == '/' {
      line := line[1..];
    }
    var parts := CompileGlob(line);
    var end := Either(SLASH, End);
    var regex :=
      if anchored then Then(Start, Then(Joined(parts), end))
      else Then(Either(Start, SLASH), Then(Joined(parts), end));
    return Some(Compiled(regex, negation, dirOnly));
  }

  /** The line a rule is written as, `rooted` by a leading slash. */
  function Written(negation: bool, rooted: bool, body: string, dirOnly: bool): string {
    (if negation then "!" else "") + (if rooted then "/" else "") + body + (if dirOnly then "/" else "")
  }

  /** A body that cannot be mistaken for one of the marks around it. */
  predicate PlainBody(body: string) {
    body != "" && !IsBlank(body[0]) && body[0] != '#' && body[0] != '!' && body[0] != '/' &&
    !IsBlank(body[|body| - 1]) && body[|body| - 1] != '/'
  }

  predicate AllBlank(s: string) {
    forall i :: 0 <= i < |s| ==> IsBlank(s[i])
  }

  lemma {:induction false} StripLeftBlanks(before: string, s: string)
    requires AllBlank(before) && s != "" && !IsBlank(s[0])
    ensures StripLeft(before + s) == s
  {
    if before == "" {
      assert before + s == s;
    } else {
      StripLeftBlanks(before[1..], s);
      assert (before + s)[1..] == before[1..] + s;
    }
  }

  lemma {:induction false} StripRightBlanks(s: string, after: string)
    requires AllBlank(after) && s != "" && !IsBlank(s[|s| - 1])
    ensures StripRight(s + after) == s
  {
    if after == "" {
      assert s + after == s;
    } else {
      StripRightBlanks(s, after[..|after| - 1]);
      assert (s + after)[..|s + after| - 1] == s + after[..|after| - 1];
    }
  }

  lemma StripBlanks(before: string, s: string, after: string)
    requires AllBlank(before) && AllBlank(after) && s != "" && !IsBlank(s[0]) && !IsBlank(s[|s| - 1])
    ensures Strip(before + s + after) == s
  {
    assert before + s + after == before + (s + after);
    StripLeftBlanks(before, s + after);
    StripRightBlanks(s, after);
  }

  /** A written rule reads back as itself, blanks around it ignored: anchored if it is
      rooted or has a slash inside. */
  lemma WrittenRuleParsed(before: string, negation: bool, rooted: bool, body: string, dirOnly: bool, after: string)
    requires PlainBody(body) && AllBlank(before) && AllBlank(after)
    ensures ParseLine(before + Written(negation, rooted, body, dirOnly) + after)
            == Some(Rule(rooted || '/' in body, Tokens(body), negation, dirOnly))
  {
    hide *;
    var line, rest := Written(negation, rooted, body, dirOnly), Written(false, rooted, body, dirOnly);
    GlobRead(negation, rooted, body, dirOnly);
    WrittenMark(negation, rooted, body, dirOnly);
    MarkedEnds(negation, rest, line);
    StripBlanks(before, line, after);
    StripEnds(rest);
    MarkRead(before + line + after, line);
  }

  lemma WrittenMark(negation: bool, rooted: bool, body: string, dirOnly: bool)
    ensures Written(negation, rooted, body, dirOnly) ==
            (if negation then "!" else "") + Written(false, rooted, body, dirOnly)
  {
    var root, end := if rooted then "/" else "", if dirOnly then "/" else "";
    assert "" + root + body + end == root + body + end;
    assert "!" + root + body + end == "!" + (root + body + end);
  }

  lemma StripEnds(s: string)
    requires s != "" && !IsBlank(s[0]) && !IsBlank(s[|s| - 1])
    ensures Strip(s) == s
  {
  }

  lemma MarkRead(raw: string, line: string)
    requires Strip(raw) == line && line != "" && line[0] != '#'
    ensures ParseLine(raw) == if line[0] == '!' then ParseGlob(Strip(line[1..]), true) else ParseGlob(line, false)
  {
    hide Strip, ParseGlob;
  }

  lemma MarkedEnds(negation: bool, rest: string, line: string)
    requires rest != "" && !IsBlank(rest[0]) && !IsBlank(rest[|rest| - 1]) && rest[0] != '#' && rest[0] != '!'
    requires line == (if negation then "!" else "") + rest
    ensures line != "" && !IsBlank(line[0]) && !IsBlank(line[|line| - 1]) && line[0] != '#'
    ensures if negation then line[0] == '!' && line[1..] == rest else line == rest && line[0] != '!'
  {
  }

  lemma GlobRead(negation: bool, rooted: bool, body: string, dirOnly: bool)
    requires PlainBody(body)
    ensures var rest := Written(false, rooted, body, dirOnly);
            && rest != "" && !IsBlank(rest[0]) && !IsBlank(rest[|rest| - 1]) && rest[0] != '#' && rest[0] != '!'
            && ParseGlob(rest, negation) == Some(Rule(rooted || '/' in body, Tokens(body), negation, dirOnly))
  {
    hide Tokens;
    var glob := Written(false, rooted, body, false);
    var rest := Written(false, rooted, body, dirOnly);
    assert glob == (if rooted then "/" else "") + body;
    assert rest == glob + (if dirOnly then "/" else "");
    assert rooted ==> glob[1..] == body;
    assert !rooted ==> glob == body;
    assert !dirOnly ==> rest == glob;
    assert glob[|glob| - 1] == body[|body| - 1];
    assert DropSlashes(glob) == glob;
    assert dirOnly ==> rest[..|rest| - 1] == glob;
    assert forall k :: 0 <= k < |body| ==> body[k] in glob;
  }

  // ----- paths -----

  /** The components of a path below the repository's root. */
  type Path = seq<string>

  function Posix(path: Path): string {
    Join(path, "/")
  }

  /** `path.relative_to(base).as_posix()`. */
  function Relative(path: Path, base: Path): string
    requires base <= path
  {
    if path == base then "." else Posix(path[|base|..])
  }

  // ----- patterns for a single name -----

  predicate SlashFree(s: string) {
    '/' !in s
  }

  /** No token of the pattern can stand for a slash. */
  predicate NameOnly(tokens: seq<Token>) {
    forall i :: 0 <= i < |tokens| ==> match tokens[i] case Lit(c) => c != '/' case Question => true case Star => true
      case DoubleStar => false case Dirs => false
  }

  lemma {:induction false} NameOnlySlashFree(tokens: seq<Token>, s: string)
    requires NameOnly(tokens) && GlobMatches(tokens, s)
    ensures SlashFree(s)
  {
    if tokens == [] {
    } else {
      var k :| 0 <= k <= |s| && Stands(tokens[0], s[..k]) && GlobMatches(tokens[1..], s[k..]);
      NameOnlySlashFree(tokens[1..], s[k..]);
      assert s == s[..k] + s[k..];
      assert tokens[0].Lit? || tokens[0].Question? || tokens[0].Star?;
    }
  }

  predicate EndsInNewline(s: string) {
    s != "" && s[|s| - 1] == '\n'
  }

  /** The pattern matches the name; of the last one a final newline may be left over. */
  predicate MatchesName(tokens: seq<Token>, name: string, last: bool) {
    GlobMatches(tokens, name) || (last && EndsInNewline(name) && GlobMatches(tokens, name[..|name| - 1]))
  }

  ghost predicate SomeNameMatches(tokens: seq<Token>, path: Path) {
    exists k :: 0 <= k < |path| && MatchesName(tokens, path[k], k == |path| - 1)
  }

  /** A pattern without slashes and `**` is a test on single names: it selects a path
      exactly when it matches one of the path's components. */
  lemma {:induction false} SelectsOneName(rule: Rule, path: Path)
    requires !rule.anchored && NameOnly(rule.tokens)
    requires path != [] && forall k :: 0 <= k < |path| ==> SlashFree(path[k])
    ensures Selects(rule, Posix(path)) <==> SomeNameMatches(rule.tokens, path)
    decreases |path|
  {
    hide MatchesName, SelectsPart;
    var a := path[0];
    if |path| == 1 {
      if Selects(rule, a) {
        var i, j :| 0 <= i <= j <= |a| && SelectsPart(rule, a, i, j);
        assert a == a + "";
        WholeOrBeyond(rule, a, "", i, j);
      }
      NameSelected(rule, a, "");
      assert a + "" == a;
    } else {
      var rest := Posix(path[1..]);
      var t := a + "/" + rest;
      SelectsOneName(rule, path[1..]);
      assert t[|a| + 1..] == rest && t[|a|] == '/' && t == a + ("/" + rest);
      if Selects(rule, t) {
        var i, j :| 0 <= i <= j <= |t| && SelectsPart(rule, t, i, j);
        WholeOrBeyond(rule, a, "/" + rest, i, j);
        if i > |a| {
          SelectsBeyond(rule, t, |a| + 1, i, j);
          var k :| 0 <= k < |path[1..]| && MatchesName(rule.tokens, path[1..][k], k == |path[1..]| - 1);
          assert path[k + 1] == path[1..][k];
        }
      }
      if SomeNameMatches(rule.tokens, path) {
        var k :| 0 <= k < |path| && MatchesName(rule.tokens, path[k], k == |path| - 1);
        if k == 0 {
          NameSelected(rule, a, "/" + rest);
        } else {
          assert path[1..][k - 1] == path[k];
          SelectedBeyond(rule, t, |a| + 1);
        }
      }
    }
  }

  /** A name that matches is selected as the first component. */
  lemma NameSelected(rule: Rule, a: string, more: string)
    requires more == "" || more[0] == '/'
    ensures MatchesName(rule.tokens, a, more == "") ==> Selects(rule, a + more)
  {
    hide GlobMatches;
    var t := a + more;
    assert t[0..|a|] == a;
    assert a != "" ==> t[0..|a| - 1] == a[..|a| - 1];
    if GlobMatches(rule.tokens, a) {
      assert SelectsPart(rule, t, 0, |a|);
    } else if MatchesName(rule.tokens, a, more == "") {
      assert SelectsPart(rule, t, 0, |a| - 1);
    }
  }

  /** A selected part of `a` followed by nothing or by a slash and more is all of `a`,
      up to a newline that ends the path, or lies beyond it. */
  lemma WholeOrBeyond(rule: Rule, a: string, more: string, i: nat, j: nat)
    requires NameOnly(rule.tokens) && SlashFree(a) && (more == "" || more[0] == '/')
    requires i <= j <= |a + more| && SelectsPart(rule, a + more, i, j)
    ensures i > |a| || MatchesName(rule.tokens, a, more == "")
  {
    var t := a + more;
    NameOnlySlashFree(rule.tokens, t[i..j]);
    hide GlobMatches;
    assert forall k :: 0 <= k < |a| ==> t[k] == a[k] && a[k] in a;
    assert forall k :: i <= k < j ==> t[k] == t[i..j][k - i] && t[k] in t[i..j];
    assert forall k :: |a| <= k < |t| ==> t[k] == more[k - |a|];
    assert i <= |a| ==> i == 0;
    assert |a| < |t| ==> t[|a|] == '/';
    assert i <= |a| ==> j == |a| || (j == |a| - 1 && more == "" && EndsInNewline(a));
    assert i <= |a| && j == |a| ==> t[i..j] == a;
    assert i <= |a| && j == |a| - 1 ==> t[i..j] == a[..|a| - 1];
  }

  lemma SelectsBeyond(rule: Rule, t: string, n: nat, i: nat, j: nat)
    requires 0 < n <= i <= j <= |t| && t[n - 1] == '/' && SelectsPart(rule, t, i, j)
    ensures Selects(rule, t[n..])
  {
    hide GlobMatches;
    assert t[i..j] == t[n..][i - n..j - n];
    assert SelectsPart(rule, t[n..], i - n, j - n);
  }

  lemma SelectedBeyond(rule: Rule, t: string, n: nat)
    requires 0 < n <= |t| && t[n - 1] == '/' && !rule.anchored && Selects(rule, t[n..])
    ensures Selects(rule, t)
  {
    hide GlobMatches;
    var i, j :| 0 <= i <= j <= |t[n..]| && SelectsPart(rule, t[n..], i, j);
    assert t[n + i..n + j] == t[n..][i..j];
    assert SelectsPart(rule, t, n + i, n + j);
  }

  // ----- which rule decides -----

  /** A rule and the directory whose `.gitignore` holds it. */
  datatype Placed = Placed(base: Path, rule: Rule)

  predicate Applies(placed: Placed, path: Path, isDir: bool) {
    placed.base <= path && (placed.rule.dirOnly ==> isDir) && Selects(placed.rule, Relative(path, placed.base))
  }

  /** The last rule that applies decides; without one there is no decision. */
  ghost predicate LastWins(rules: seq<Placed>, path: Path, isDir: bool, decision: Option<bool>) {
    match decision
    case None => forall k :: 0 <= k < |rules| ==> !Applies(rules[k], path, isDir)
    case Some(ignore) => exists k :: 0 <= k < |rules| && Decides(rules, path, isDir, k) && ignore == !rules[k].rule.negation
  }

  ghost predicate Decides(rules: seq<Placed>, path: Path, isDir: bool, k: nat)
    requires k < |rules|
  {
    Applies(rules[k], path, isDir) && forall m :: k < m < |rules| ==> !Applies(rules[m], path, isDir)
  }

  lemma LastWinsUnique(rules: seq<Placed>, path: Path, isDir: bool, a: Option<bool>, b: Option<bool>)
    requires LastWins(rules, path, isDir, a) && LastWins(rules, path, isDir, b)
    ensures a == b
  {
    hide Applies;
  }

  /** Deciding list by list, a later decision replacing an earlier one, is deciding
      on the lists put one after the other. */
  lemma LastWinsConcat(a: seq<Placed>, b: seq<Placed>, path: Path, isDir: bool, da: Option<bool>, db: Option<bool>)
    requires LastWins(a, path, isDir, da) && LastWins(b, path, isDir, db)
    ensures LastWins(a + b, path, isDir, if db.Some? then db else da)
  {
    hide Applies;
    if db.Some? {
      var k :| 0 <= k < |b| && Decides(b, path, isDir, k) && db.value == !b[k].rule.negation;
      assert Decides(a + b, path, isDir, |a| + k);
    } else if da.Some? {
      var k :| 0 <= k < |a| && Decides(a, path, isDir, k) && da.value == !a[k].rule.negation;
      assert Decides(a + b, path, isDir, k);
    }
  }

  // ----- rule sets -----

  /** The compiled rules of the `.gitignore` in directory `base`. */
  datatype Ruleset = Ruleset(base: Path, patterns: seq<Compiled>)

  function Place(base: Path, rules: seq<Rule>): seq<Placed> {
    seq(|rules|, i requires 0 <= i < |rules| => Placed(base, rules[i]))
  }

  function RulesetOf(base: Path, rules: seq<Rule>): Ruleset {
    Ruleset(base, seq(|rules|, i requires 0 <= i < |rules| => CompiledRule(rules[i])))
  }

  function ParseAll(lines: seq<string>): seq<Rule> {
    if lines == [] then []
    else
      var last := ParseLine(lines[|lines| - 1]);
      ParseAll(lines[..|lines| - 1]) + (if last.Some? then [last.value] else [])
  }

  method CompileRules(base: Path, lines: seq<string>) returns (r: Ruleset)
    ensures r == RulesetOf(base, ParseAll(lines))
  {
    hide ParseLine, CompiledRule;
    var patterns: seq<Compiled> := [];
    for i := 0 to |lines|
      invariant patterns == RulesetOf(base, ParseAll(lines[..i])).patterns
    {
      assert lines[..i + 1][..i] == lines[..i];
      var compiled := CompilePattern(lines[i]);
      if compiled.Some? {
        patterns := patterns + [compiled.value];
      }
    }
    assert lines[..|lines|] == lines;
    return Ruleset(base, patterns);
  }

  method IsIgnored(rules: Ruleset, path: Path, isDir: bool, ghost parsed: seq<Rule>) returns (decision: Option<bool>)
    requires rules == RulesetOf(rules.base, parsed)
    ensures LastWins(Place(rules.base, parsed), path, isDir, decision)
  {
    hide Selects, Search, Pattern;
    if !(rules.base <= path) {
      return None;
    }
    var rel := Relative(path, rules.base);
    ghost var placed := Place(rules.base, parsed);
    decision := None;
    for i := 0 to |rules.patterns|
      invariant LastWins(placed[..i], path, isDir, decision)
    {
      var pattern := rules.patterns[i];
      CompiledMeans(parsed[i], rel);
      ghost var one: Option<bool> := if Applies(placed[i], path, isDir) then Some(!pattern.negation) else None;
      OneDecides(placed[i], path, isDir, one);
      LastWinsConcat(placed[..i], [placed[i]], path, isDir, decision, one);
      assert placed[..i + 1] == placed[..i] + [placed[i]];
      if pattern.dirOnly && !isDir {
        continue;
      }
      if Search(pattern.regex, rel) {
        decision := Some(!pattern.negation);
      }
    }
    assert placed[..|placed|] == placed;
  }

  lemma OneDecides(placed: Placed, path: Path, isDir: bool, one: Option<bool>)
    requires one == if Applies(placed, path, isDir) then Some(!placed.rule.negation) else None
    ensures LastWins([placed], path, isDir, one)
  {
    hide Applies;
    assert Applies(placed, path, isDir) ==> Decides([placed], path, isDir, 0);
  }

  // ----- rule sets stacked from the root down -----

  datatype Layer = Layer(base: Path, rules: seq<Rule>)

  function Stacked(layers: seq<Layer>): seq<Ruleset> {
    seq(|layers|, i requires 0 <= i < |layers| => RulesetOf(layers[i].base, layers[i].rules))
  }

  function Flatten(layers: seq<Layer>): seq<Placed> {
    if layers == [] then []
    else
      var last := layers[|layers| - 1];
      Flatten(layers[..|layers| - 1]) + Place(last.base, last.rules)
  }

  ghost predicate Ignored(rules: seq<Placed>, path: Path, isDir: bool) {
    LastWins(rules, path, isDir, Some(true))
  }

  /** The stacked rule sets ignore a path exactly when the last rule that applies,
      over all of them read from the root down, is not a negation. */
  method IsGitignored(path: Path, isDir: bool, sets: seq<Ruleset>, ghost layers: seq<Layer>) returns (r: bool)
    requires sets == Stacked(layers)
    ensures r <==> Ignored(Flatten(layers), path, isDir)
  {
    hide LastWins, RulesetOf, Place;
    var decision: Option<bool> := None;
    NoRules(path, isDir);
    for i := 0 to |sets|
      invariant LastWins(Flatten(layers[..i]), path, isDir, decision)
    {
      assert sets[i] == RulesetOf(layers[i].base, layers[i].rules);
      BaseOf(layers[i].base, layers[i].rules);
      var result := IsIgnored(sets[i], path, isDir, layers[i].rules);
      assert layers[..i + 1][..i] == layers[..i];
      LastWinsConcat(Flatten(layers[..i]), Place(layers[i].base, layers[i].rules), path, isDir, decision, result);
      if result.Some? {
        decision := result;
      }
    }
    assert layers[..|layers|] == layers;
    r := decision == Some(true);
    if Ignored(Flatten(layers), path, isDir) {
      LastWinsUnique(Flatten(layers), path, isDir, decision, Some(true));
    }
  }

  lemma NoRules(path: Path, isDir: bool)
    ensures Flatten([]) == [] && LastWins([], path, isDir, None)
  {
  }

  lemma BaseOf(base: Path, rules: seq<Rule>)
    ensures RulesetOf(base, rules).base == base
  {
  }
}
