/** Finding the first balanced `{...}` object in model output, and why any JSON
    object printed there comes back whole. */
module BalancedJson {
  import opened Collections

  const QUOTE: char := '"'
  const BACKSLASH: char := '\\'

  // ----- what balanced means -----

  /** What follows a string literal whose opening quote has been read; a literal
      that is never closed swallows the text. */
  function AfterLiteral(s: string): (r: string)
    ensures |r| <= |s|
  {
    if s == "" then ""
    else if s[0] == BACKSLASH then (if |s| == 1 then "" else AfterLiteral(s[2..]))
    else if s[0] == QUOTE then s[1..]
    else AfterLiteral(s[1..])
  }

  /** The text with its string literals removed. */
  function Outside(s: string): string
    decreases |s|
  {
    if s == "" then ""
    else if s[0] == QUOTE then Outside(AfterLiteral(s[1..]))
    else [s[0]] + Outside(s[1..])
  }

  function BraceBalance(s: string): int {
    if s == "" then 0
    else (if s[0] == '{' then 1 else if s[0] == '}' then -1 else 0) + BraceBalance(s[1..])
  }

  predicate Balanced(s: string) {
    s != "" && BraceBalance(Outside(s)) == 0
  }

  function FirstBrace(s: string): (r: nat)
    ensures r <= |s| && (r < |s| ==> s[r] == '{') && forall i :: 0 <= i < r ==> s[i] != '{'
  {
    if s == "" || s[0] == '{' then 0 else 1 + FirstBrace(s[1..])
  }

  /** The shortest balanced slice from the first brace, None when there is none. */
  ghost predicate FirstObject(text: string, r: Option<string>) {
    var rest := text[FirstBrace(text)..];
    match r
    case None => forall k :: 0 <= k <= |rest| ==> !Balanced(rest[..k])
    case Some(s) => s <= rest && Balanced(s) && forall k :: 0 <= k < |s| ==> !Balanced(s[..k])
  }

  // ----- the scan -----

  /** Brace depth, whether inside a literal, whether the next character is escaped. */
  datatype Scan = Scan(depth: int, inString: bool, escape: bool)

  function Step(st: Scan, c: char): Scan {
    if st.inString then
      if st.escape then st.(escape := false)
      else if c == BACKSLASH then st.(escape := true)
      else if c == QUOTE then st.(inString := false)
      else st
    else if c == QUOTE then st.(inString := true)
    else if c == '{' then st.(depth := st.depth + 1)
    else if c == '}' then st.(depth := st.depth - 1)
    else st
  }

  function After(st: Scan, s: string): Scan
    decreases |s|
  {
    if s == "" then st else After(Step(st, s[0]), s[1..])
  }

  function Out(depth: int): Scan {
    Scan(depth, false, false)
  }

  lemma {:induction false} AfterConcat(st: Scan, a: string, b: string)
    ensures After(st, a + b) == After(After(st, a), b)
    decreases |a|
  {
    if a == "" {
      assert a + b == b;
    } else {
      AfterConcat(Step(st, a[0]), a[1..], b);
      assert (a + b)[1..] == a[1..] + b;
    }
  }

  lemma AfterOne(st: Scan, c: char)
    ensures After(st, [c]) == Step(st, c)
  {
    assert [c][1..] == "";
  }

  /** The scan's depth is the balance of what lies outside literals. */
  lemma {:induction false} ScanCountsOutside(d: int, s: string)
    ensures After(Out(d), s).depth == d + BraceBalance(Outside(s))
    decreases |s|
  {
    if s == "" {
    } else if s[0] == QUOTE {
      LiteralSkipped(d, s[1..]);
      ScanCountsOutside(d, AfterLiteral(s[1..]));
    } else {
      ScanCountsOutside(Step(Out(d), s[0]).depth, s[1..]);
      assert ([s[0]] + Outside(s[1..]))[1..] == Outside(s[1..]);
    }
  }

  lemma {:induction false} LiteralSkipped(d: int, s: string)
    ensures After(Scan(d, true, false), s).depth == After(Out(d), AfterLiteral(s)).depth
    decreases |s|
  {
    if s == "" {
    } else if s[0] == BACKSLASH {
      if |s| > 1 {
        LiteralSkipped(d, s[2..]);
        assert s[1..][1..] == s[2..];
      }
    } else if s[0] != QUOTE {
      LiteralSkipped(d, s[1..]);
    }
  }

  lemma BalancedIffDepthZero(s: string)
    requires s != ""
    ensures Balanced(s) <==> After(Out(0), s).depth == 0
  {
    ScanCountsOutside(0, s);
  }

  lemma ScanOne(s: string, k: nat)
    requires k < |s|
    ensures After(Out(0), s[..k + 1]) == Step(After(Out(0), s[..k]), s[k])
    ensures Balanced(s[..k + 1]) <==> Step(After(Out(0), s[..k]), s[k]).depth == 0
  {
    assert s[..k + 1] == s[..k] + [s[k]];
    AfterConcat(Out(0), s[..k], [s[k]]);
    AfterOne(After(Out(0), s[..k]), s[k]);
    BalancedIffDepthZero(s[..k + 1]);
  }

  lemma NothingScanned(s: string)
    ensures s[..0] == "" && After(Out(0), s[..0]) == Out(0) && !Balanced(s[..0])
  {
  }

  method FindBalancedObject(text: string) returns (r: Option<string>)
    ensures FirstObject(text, r)
  {
    hide After, Balanced, FirstBrace;
    var start := FirstBrace(text);
    ghost var rest := text[start..];
    NothingScanned(rest);
    if start == |text| {
      return None;
    }
    var depth, inString, escape := 0, false, false;
    for index := start to |text|
      invariant After(Out(0), rest[..index - start]) == Scan(depth, inString, escape)
      invariant if index == start then Scan(depth, inString, escape) == Out(0) else depth > 0
      invariant forall k :: 0 <= k <= index - start ==> !Balanced(rest[..k])
    {
      var c := text[index];
      ScanOne(rest, index - start);
      if inString {
        if escape {
          escape := false;
        } else if c == BACKSLASH {
          escape := true;
        } else if c == QUOTE {
          inString := false;
        }
      } else if c == QUOTE {
        inString := true;
      } else if c == '{' {
        depth := depth + 1;
      } else if c == '}' {
        depth := depth - 1;
        if depth == 0 {
          ghost var found := rest[..index + 1 - start];
          assert found == text[start..index + 1];
          assert forall k :: 0 <= k < |found| ==> found[..k] == rest[..k];
          assert found <= rest && Balanced(found);
          return Some(text[start..index + 1]);
        }
      }
    }
    return None;
  }

  // ----- JSON texts, RFC 8259 -----

  /** One character of a string literal (section 7 of RFC 8259): itself, or escaped
      by a backslash; the four digits of a `\u` escape are characters of their own. */
  datatype Piece = Plain(c: char) | Escaped(c: char)

  /** A value as written (sections 2 to 5), white space included. A scalar is a
      number, true, false or null. */
  datatype Value =
    | Scalar(text: string)
    | Text(pieces: seq<Piece>)
    | Array(items: Items)
    | Object(members: Members)
  datatype Items =
    | NoItems(space: string)
    | Item(before: string, value: Value, after: string, more: Items)
  datatype Members =
    | NoMembers(space: string)
    | Member(before: string, key: seq<Piece>, gap: string, lead: string, value: Value, after: string, more: Members)

  function Literal(pieces: seq<Piece>): string {
    [QUOTE] + Inside(pieces)
  }

  function Inside(pieces: seq<Piece>): string {
    if pieces == [] then [QUOTE]
    else
      (match pieces[0] case Plain(c) => [c] case Escaped(c) => [BACKSLASH, c]) + Inside(pieces[1..])
  }

  function Print(v: Value): string {
    match v
    case Scalar(text) => text
    case Text(pieces) => Literal(pieces)
    case Array(items) => "[" + PrintItems(items) + "]"
    case Object(members) => "{" + PrintMembers(members) + "}"
  }

  function PrintItems(items: Items): string {
    match items
    case NoItems(space) => space
    case Item(before, value, after, more) =>
      before + Print(value) + after + (if more.NoItems? then "" else ",") + PrintItems(more)
  }

  function PrintMembers(members: Members): string {
    match members
    case NoMembers(space) => space
    case Member(before, key, gap, lead, value, after, more) =>
      before + Literal(key) + gap + ":" + lead + Print(value) + after +
      (if more.NoMembers? then "" else ",") + PrintMembers(more)
  }

  /** No character a scan reacts to: so much holds of all white space and scalars. */
  predicate Inert(s: string) {
    forall i :: 0 <= i < |s| ==> s[i] != QUOTE && s[i] != '{' && s[i] != '}'
  }

  predicate GoodPieces(pieces: seq<Piece>) {
    forall i :: 0 <= i < |pieces| ==> pieces[i].Plain? ==> pieces[i].c != QUOTE && pieces[i].c != BACKSLASH
  }

  predicate GoodValue(v: Value) {
    match v
    case Scalar(text) => Inert(text)
    case Text(pieces) => GoodPieces(pieces)
    case Array(items) => GoodItems(items)
    case Object(members) => GoodMembers(members)
  }

  predicate GoodItems(items: Items) {
    match items
    case NoItems(space) => Inert(space)
    case Item(before, value, after, more) => Inert(before) && GoodValue(value) && Inert(after) && GoodItems(more)
  }

  predicate GoodMembers(members: Members) {
    match members
    case NoMembers(space) => Inert(space)
    case Member(before, key, gap, lead, value, after, more) =>
      Inert(before) && GoodPieces(key) && Inert(gap) && Inert(lead) && GoodValue(value) && Inert(after) &&
      GoodMembers(more)
  }

  // ----- printed values leave the scan where it was -----

  /** Scanning from outside a literal, the text comes back to the depth it started at
      and never goes below it. */
  ghost predicate Sealed(s: string) {
    forall d: int :: After(Out(d), s) == Out(d) && NeverBelow(d, Out(d), s)
  }

  ghost predicate NeverBelow(d: int, st: Scan, s: string) {
    forall k :: 0 <= k <= |s| ==> After(st, s[..k]).depth >= d
  }

  lemma NeverBelowConcat(d: int, st: Scan, a: string, b: string)
    requires NeverBelow(d, st, a) && NeverBelow(d, After(st, a), b)
    ensures NeverBelow(d, st, a + b)
  {
    forall k | 0 <= k <= |a + b| ensures After(st, (a + b)[..k]).depth >= d {
      if k <= |a| {
        assert (a + b)[..k] == a[..k];
      } else {
        assert (a + b)[..k] == a + b[..k - |a|];
        AfterConcat(st, a, b[..k - |a|]);
      }
    }
  }

  lemma SealedConcat(a: string, b: string)
    requires Sealed(a) && Sealed(b)
    ensures Sealed(a + b)
  {
    forall d: int ensures After(Out(d), a + b) == Out(d) && NeverBelow(d, Out(d), a + b) {
      AfterConcat(Out(d), a, b);
      NeverBelowConcat(d, Out(d), a, b);
    }
  }

  lemma {:induction false} InertSealed(s: string)
    requires Inert(s)
    ensures Sealed(s)
  {
    forall d: int ensures After(Out(d), s) == Out(d) && NeverBelow(d, Out(d), s) {
      InertScan(d, s);
      forall k | 0 <= k <= |s| ensures After(Out(d), s[..k]).depth >= d {
        InertScan(d, s[..k]);
      }
    }
  }

  lemma {:induction false} InertScan(d: int, s: string)
    requires Inert(s)
    ensures After(Out(d), s) == Out(d)
  {
    if s != "" {
      InertScan(d, s[1..]);
    }
  }

  lemma LiteralSealed(pieces: seq<Piece>)
    requires GoodPieces(pieces)
    ensures Sealed(Literal(pieces))
  {
    var s := Literal(pieces);
    forall d: int ensures After(Out(d), s) == Out(d) && NeverBelow(d, Out(d), s) {
      InsideScan(d, pieces);
      assert s[1..] == Inside(pieces);
      forall k | 0 <= k <= |s| ensures After(Out(d), s[..k]).depth >= d {
        LiteralKeepsDepth(d, pieces, k);
      }
    }
  }

  lemma {:induction false} InsideScan(d: int, pieces: seq<Piece>)
    requires GoodPieces(pieces)
    ensures After(Scan(d, true, false), Inside(pieces)) == Out(d)
  {
    if pieces == [] {
      assert [QUOTE][1..] == "";
    } else {
      InsideScan(d, pieces[1..]);
      var first := match pieces[0] case Plain(c) => [c] case Escaped(c) => [BACKSLASH, c];
      PieceScan(d, pieces[0]);
      AfterConcat(Scan(d, true, false), first, Inside(pieces[1..]));
    }
  }

  lemma PieceScan(d: int, p: Piece)
    requires p.Plain? ==> p.c != QUOTE && p.c != BACKSLASH
    ensures After(Scan(d, true, false), match p case Plain(c) => [c] case Escaped(c) => [BACKSLASH, c])
            == Scan(d, true, false)
  {
    match p
    case Plain(c) => AfterOne(Scan(d, true, false), c);
    case Escaped(c) =>
      AfterOne(Scan(d, true, true), c);
      assert [BACKSLASH, c][1..] == [c];
  }

  /** A string literal never moves the depth, at any point within it. */
  lemma LiteralKeepsDepth(d: int, pieces: seq<Piece>, k: nat)
    requires GoodPieces(pieces) && k <= |Literal(pieces)|
    ensures After(Out(d), Literal(pieces)[..k]).depth == d
  {
    var s := Literal(pieces)[..k];
    if k > 0 {
      assert s[1..] == Inside(pieces)[..k - 1];
      InsideKeepsDepth(d, pieces, k - 1);
    }
  }

  lemma {:induction false} InsideKeepsDepth(d: int, pieces: seq<Piece>, k: nat)
    requires GoodPieces(pieces) && k <= |Inside(pieces)|
    ensures After(Scan(d, true, false), Inside(pieces)[..k]).depth == d
  {
    var st, s := Scan(d, true, false), Inside(pieces)[..k];
    if pieces == [] {
      assert k == 1 ==> s[1..] == "";
    } else {
      var first := match pieces[0] case Plain(c) => [c] case Escaped(c) => [BACKSLASH, c];
      if k == 1 {
        assert s == [first[0]];
        AfterOne(st, first[0]);
      } else if 0 < k <= |first| {
        assert s == first;
        PieceScan(d, pieces[0]);
      } else if k > 0 {
        assert s == first + Inside(pieces[1..])[..k - |first|];
        PieceScan(d, pieces[0]);
        AfterConcat(st, first, Inside(pieces[1..])[..k - |first|]);
        InsideKeepsDepth(d, pieces[1..], k - |first|);
      }
    }
  }

  /** Between its braces an object stays at least one deep. */
  lemma ObjectScan(body: string, d: int)
    requires Sealed(body)
    ensures NeverBelow(d + 1, Out(d + 1), body) && After(Out(d), "{" + body) == Out(d + 1)
    ensures After(Out(d), "{" + body + "}") == Out(d)
    ensures NeverBelow(d, Out(d), "{" + body + "}")
  {
    assert After(Out(d + 1), body) == Out(d + 1) && NeverBelow(d + 1, Out(d + 1), body);
    assert ("{" + body)[1..] == body;
    AfterConcat(Out(d), "{" + body, "}");
    assert "}"[1..] == "";
    forall k | 0 <= k <= |"{" + body| ensures After(Out(d), ("{" + body)[..k]).depth >= d {
      if k > 0 {
        assert ("{" + body)[..k][1..] == body[..k - 1];
      }
    }
    assert "}"[..0] == "" && "}"[..1] == "}";
    NeverBelowConcat(d, Out(d), "{" + body, "}");
  }

  lemma {:induction false} ValueSealed(v: Value)
    requires GoodValue(v)
    ensures Sealed(Print(v))
  {
    match v
    case Scalar(text) => InertSealed(text);
    case Text(pieces) => LiteralSealed(pieces);
    case Array(items) =>
      hide Sealed, PrintItems, GoodItems;
      ItemsSealed(items);
      InertSealed("[");
      InertSealed("]");
      SealedConcat("[", PrintItems(items));
      SealedConcat("[" + PrintItems(items), "]");
    case Object(members) =>
      MembersSealed(members);
      forall d: int ensures After(Out(d), Print(v)) == Out(d) && NeverBelow(d, Out(d), Print(v)) {
        ObjectScan(PrintMembers(members), d);
      }
  }

  lemma {:induction false} ItemsSealed(items: Items)
    requires GoodItems(items)
    ensures Sealed(PrintItems(items))
  {
    hide Sealed;
    match items
    case NoItems(space) => InertSealed(space);
    case Item(before, value, after, more) =>
      var comma := if more.NoItems? then "" else ",";
      InertSealed(before);
      ValueSealed(value);
      InertSealed(after);
      InertSealed(comma);
      ItemsSealed(more);
      SealedConcat(before, Print(value));
      SealedConcat(before + Print(value), after);
      SealedConcat(before + Print(value) + after, comma);
      SealedConcat(before + Print(value) + after + comma, PrintItems(more));
  }

  lemma {:induction false} MembersSealed(members: Members)
    requires GoodMembers(members)
    ensures Sealed(PrintMembers(members))
  {
    hide Sealed;
    match members
    case NoMembers(space) => InertSealed(space);
    case Member(before, key, gap, lead, value, after, more) =>
      var comma := if more.NoMembers? then "" else ",";
      InertSealed(before);
      LiteralSealed(key);
      InertSealed(gap);
      InertSealed(":");
      InertSealed(lead);
      ValueSealed(value);
      InertSealed(after);
      InertSealed(comma);
      MembersSealed(more);
      var name := before + Literal(key) + gap + ":" + lead;
      SealedConcat(before, Literal(key));
      SealedConcat(before + Literal(key), gap);
      SealedConcat(before + Literal(key) + gap, ":");
      SealedConcat(before + Literal(key) + gap + ":", lead);
      SealedConcat(name, Print(value));
      SealedConcat(name + Print(value), after);
      SealedConcat(name + Print(value) + after, comma);
      SealedConcat(name + Print(value) + after + comma, PrintMembers(more));
  }

  /** A printed object is balanced, and no proper beginning of it is. */
  lemma ObjectIsShortest(members: Members)
    requires GoodMembers(members)
    ensures Balanced(Print(Object(members)))
    ensures forall k :: 0 <= k < |Print(Object(members))| ==> !Balanced(Print(Object(members))[..k])
  {
    var body := PrintMembers(members);
    var s := "{" + body + "}";
    MembersSealed(members);
    ObjectScan(body, 0);
    BalancedIffDepthZero(s);
    forall k | 0 <= k < |s| ensures !Balanced(s[..k]) {
      if k > 0 {
        BalancedIffDepthZero(s[..k]);
        assert s[..k][1..] == body[..k - 1];
        assert After(Out(1), body[..k - 1]).depth >= 1;
      }
    }
  }

  lemma FirstBraceAfter(prefix: string, s: string)
    requires '{' !in prefix && s != "" && s[0] == '{'
    ensures FirstBrace(prefix + s) == |prefix|
  {
    assert forall i :: 0 <= i < |prefix| ==> (prefix + s)[i] == prefix[i] && prefix[i] in prefix;
    assert (prefix + s)[|prefix|] == '{';
  }

  /** Wherever an object is printed after text without an opening brace, and whatever
      follows it, the search returns that object and nothing else. */
  lemma PrintedObjectFound(prefix: string, members: Members, suffix: string, r: Option<string>)
    requires '{' !in prefix && GoodMembers(members)
    requires FirstObject(prefix + Print(Object(members)) + suffix, r)
    ensures r == Some(Print(Object(members)))
  {
    var s := Print(Object(members));
    assert s[0] == '{';
    var text := prefix + s + suffix;
    assert text == prefix + (s + suffix);
    FirstBraceAfter(prefix, s + suffix);
    ObjectIsShortest(members);
    hide Balanced, FirstBrace, GoodMembers, Print;
    var rest := text[|prefix|..];
    assert rest == s + suffix;
    assert rest[..|s|] == s;
    assert forall k :: 0 <= k <= |s| ==> rest[..k] == s[..k];
    assert r.Some? ==> r.value == rest[..|r.value|];
    assert r.Some? && |s| <= |r.value| ==> r.value[..|s|] == rest[..|s|];
  }
}
