/** A file's text, its lines, and rebuilding the text from the lines. Line
    terminators are LF, CRLF and lone CR. */
module FileLines {
  import opened Collections
  import opened Strings

  const LF: string := "\n"
  const CRLF: string := "\r\n"

  /** Length of the line before the first terminator. */
  function LineLength(t: string): (r: nat)
    ensures r <= |t| && (r < |t| ==> t[r] == '\n' || t[r] == '\r')
    ensures forall k :: 0 <= k < r ==> t[k] != '\n' && t[k] != '\r'
  {
    if t == "" || t[0] == '\n' || t[0] == '\r' then 0
    else
      var rest := LineLength(t[1..]);
      assert forall k :: 0 < k < |t| ==> t[k] == t[1..][k - 1];
      1 + rest
  }

  /** The terminator at the end of the first line, empty at the end of the text. */
  function Terminator(t: string): string {
    var n := LineLength(t);
    if n == |t| then "" else if t[n] == '\n' then LF else if n + 1 < |t| && t[n + 1] == '\n' then CRLF else "\r"
  }

  function AfterLine(t: string): string {
    t[LineLength(t) + |Terminator(t)|..]
  }

  lemma LineParts(t: string)
    ensures t == t[..LineLength(t)] + Terminator(t) + AfterLine(t)
    ensures t != "" ==> |AfterLine(t)| < |t|
    ensures Terminator(t) in {"", LF, CRLF, "\r"} && (Terminator(t) == "" <==> LineLength(t) == |t|)
    ensures Terminator(t) == "\r" ==> AfterLine(t) == "" || AfterLine(t)[0] != '\n'
  {
    var n := LineLength(t);
    hide LineLength;
    if n < |t| {
      assert t[..n] + t[n..n + |Terminator(t)|] + t[n + |Terminator(t)|..] == t;
      assert t[n..n + |Terminator(t)|] == Terminator(t);
    }
  }

  /** `splitlines()`. */
  function SplitLines(t: string): seq<string>
    decreases |t|
  {
    if t == "" then []
    else
      LineParts(t);
      [t[..LineLength(t)]] + SplitLines(AfterLine(t))
  }

  predicate TrailingNewline(t: string) {
    t == "" || t[|t| - 1] == '\n' || t[|t| - 1] == '\r'
  }

  function LinesToText(lines: seq<string>, trailing: bool, newline: string): string {
    Join(lines, newline) + if trailing && lines != [] then newline else ""
  }

  function CountLf(t: string): nat {
    if t == "" then 0 else (if t[0] == '\n' then 1 else 0) + CountLf(t[1..])
  }

  function CountCrlf(t: string): nat {
    if |t| < 2 then 0 else if t[0] == '\r' && t[1] == '\n' then 1 + CountCrlf(t[2..]) else CountCrlf(t[1..])
  }

  /** CRLF when those endings are at least as many as bare LF ones. */
  function DominantNewline(t: string): string {
    if CountCrlf(t) > 0 && CountCrlf(t) >= CountLf(t) - CountCrlf(t) then CRLF else LF
  }

  /** Every terminator in the text is the given one. */
  predicate Uniform(t: string, newline: string)
    decreases |t|
  {
    t == "" ||
    (LineParts(t); Terminator(t) in {"", newline} && Uniform(AfterLine(t), newline))
  }

  // ----- rebuilding -----

  lemma TrailingOfRest(t: string)
    requires t != "" && AfterLine(t) != ""
    ensures TrailingNewline(t) == TrailingNewline(AfterLine(t))
  {
    LineParts(t);
  }

  lemma SplitEmpty(t: string)
    ensures SplitLines(t) == [] <==> t == ""
  {
  }

  /** The rebuilt text line by line. */
  lemma RebuildParts(t: string, newline: string)
    requires t != ""
    ensures LinesToText(SplitLines(t), TrailingNewline(t), newline) ==
      t[..LineLength(t)] + (if Terminator(t) == "" then "" else newline) +
      LinesToText(SplitLines(AfterLine(t)), TrailingNewline(AfterLine(t)), newline)
  {
    LineParts(t);
    SplitOne(t);
    SplitEmpty(AfterLine(t));
    if AfterLine(t) != "" {
      TrailingOfRest(t);
    }
    LastLine(t);
    hide *;
    var line, rest := t[..LineLength(t)], AfterLine(t);
    WrittenAny([line] + SplitLines(rest), TrailingNewline(t), newline);
    assert ([line] + SplitLines(rest))[1..] == SplitLines(rest);
    if rest == "" {
      assert SplitLines(rest) == [];
      EmptyText(newline);
    }
  }

  lemma WrittenAny(lines: seq<string>, trailing: bool, newline: string)
    requires lines != []
    ensures |lines| == 1 ==> LinesToText(lines, trailing, newline) == lines[0] + (if trailing then newline else "")
    ensures |lines| > 1 ==>
      LinesToText(lines, trailing, newline) == lines[0] + newline + LinesToText(lines[1..], trailing, newline)
  {
  }

  lemma LastLine(t: string)
    requires t != ""
    ensures AfterLine(t) == "" ==> (TrailingNewline(t) <==> Terminator(t) != "")
    ensures Terminator(t) == "" ==> AfterLine(t) == ""
  {
    LineParts(t);
  }

  /** No terminator is followed by text that makes it look like another. */
  lemma SameStart(line: string, term: string, rest: string, newline: string, other: string)
    requires term in {LF, CRLF, "\r"} && newline in {LF, CRLF} && term != newline
    requires term == "\r" ==> rest == "" || rest[0] != '\n'
    ensures line + newline + other != line + term + rest
  {
    var x, y := newline + other, term + rest;
    assert x[0] == newline[0] && y[0] == term[0];
    assert newline == CRLF ==> x[1] == '\n';
    assert |y| > 1 && term == "\r" ==> y[1] == rest[0];
    assert (line + newline + other)[|line|..] == x && (line + term + rest)[|line|..] == y;
  }

  /** Splitting a text and rebuilding it with one newline gives it back exactly
      when it uses no other. */
  lemma {:induction false} RebuildIff(t: string, newline: string)
    requires newline in {LF, CRLF}
    ensures LinesToText(SplitLines(t), TrailingNewline(t), newline) == t <==> Uniform(t, newline)
    decreases |t|
  {
    hide *;
    if t == "" {
      EmptyText(newline);
    } else {
      LineParts(t);
      RebuildParts(t, newline);
      UniformParts(t, newline);
      RebuildIff(AfterLine(t), newline);
      var line, term, rest := t[..LineLength(t)], Terminator(t), AfterLine(t);
      var again := LinesToText(SplitLines(rest), TrailingNewline(rest), newline);
      if term == "" {
        assert rest == "";
        EmptyText(newline);
      } else if term == newline {
        assert (line + newline + again)[|line + newline|..] == again;
        assert (line + newline + rest)[|line + newline|..] == rest;
      } else {
        SameStart(line, term, rest, newline, again);
      }
    }
  }

  lemma EmptyText(newline: string)
    ensures LinesToText(SplitLines(""), TrailingNewline(""), newline) == "" && Uniform("", newline)
  {
  }

  lemma UniformParts(t: string, newline: string)
    requires t != ""
    ensures Uniform(t, newline) <==> Terminator(t) in {"", newline} && Uniform(AfterLine(t), newline)
  {
    LineParts(t);
  }

  // ----- the dominant newline -----

  lemma {:induction false} CountsOfLine(line: string, rest: string)
    requires forall k :: 0 <= k < |line| ==> line[k] != '\n' && line[k] != '\r'
    ensures CountLf(line + rest) == CountLf(rest) && CountCrlf(line + rest) == CountCrlf(rest)
  {
    if line == "" {
      assert line + rest == rest;
    } else {
      assert (line + rest)[1..] == line[1..] + rest;
      CountsOfLine(line[1..], rest);
    }
  }

  /** In a text with one kind of newline the counts say which. */
  lemma {:induction false} UniformCounts(t: string, newline: string)
    requires newline in {LF, CRLF} && Uniform(t, newline)
    ensures newline == LF ==> CountCrlf(t) == 0
    ensures newline == CRLF ==> CountCrlf(t) == CountLf(t)
    ensures CountLf(t) == 0 ==> Uniform(t, LF) && Uniform(t, CRLF)
    decreases |t|
  {
    hide *;
    if t == "" {
      EmptyText(LF);
      EmptyText(CRLF);
      CountsOfTerminator("", "");
    } else {
      LineParts(t);
      LineIsPlain(t);
      UniformParts(t, LF);
      UniformParts(t, CRLF);
      var line, term, rest := t[..LineLength(t)], Terminator(t), AfterLine(t);
      UniformCounts(rest, newline);
      assert t == line + (term + rest);
      CountsOfLine(line, term + rest);
      CountsOfTerminator(term, rest);
      assert term == "" ==> rest == "";
    }
  }

  lemma LineIsPlain(t: string)
    ensures forall k :: 0 <= k < LineLength(t) ==> t[k] != '\n' && t[k] != '\r'
  {
  }

  lemma CountsOfTerminator(term: string, rest: string)
    ensures CountLf("") == 0 && CountCrlf("") == 0
    ensures term == "" ==> term + rest == rest
    ensures term == LF ==> CountLf(term + rest) == 1 + CountLf(rest) && CountCrlf(term + rest) == CountCrlf(rest)
    ensures term == CRLF ==> CountLf(term + rest) == 1 + CountLf(rest) && CountCrlf(term + rest) == 1 + CountCrlf(rest)
  {
    if term == LF {
      assert (term + rest)[1..] == rest;
    } else if term == CRLF {
      assert (term + rest)[2..] == rest && (term + rest)[1..] == "\n" + rest && ("\n" + rest)[1..] == rest;
    }
  }

  /** A staged edit's reconstruction of an unedited file is exact exactly for
      files that use only LF or only CRLF. */
  lemma RoundTripIff(t: string)
    ensures LinesToText(SplitLines(t), TrailingNewline(t), DominantNewline(t)) == t <==>
      Uniform(t, LF) || Uniform(t, CRLF)
  {
    RebuildIff(t, DominantNewline(t));
    if Uniform(t, LF) {
      UniformCounts(t, LF);
    }
    if Uniform(t, CRLF) {
      UniformCounts(t, CRLF);
    }
  }

  /** A mix is rewritten, here to CRLF throughout, though only one ending of two is. */
  lemma MixedEndingsAreRewritten()
    ensures var t := "a\nb\r\n";
      DominantNewline(t) == CRLF && LinesToText(SplitLines(t), TrailingNewline(t), DominantNewline(t)) != t
  {
    var t := "a\nb\r\n";
    TiedEndings();
    assert LineLength(t) == 1 && Terminator(t) == LF && AfterLine(t) == "b\r\n";
    assert LineLength("b\r\n") == 1 && Terminator("b\r\n") == CRLF && AfterLine("b\r\n") == "";
    UniformParts(t, CRLF);
    UniformParts(t, LF);
    UniformParts("b\r\n", LF);
    hide *;
    RoundTripIff(t);
  }

  lemma DominantIsCrlf(t: string)
    ensures DominantNewline(t) == CRLF <==> CountCrlf(t) > 0 && CountCrlf(t) >= CountLf(t) - CountCrlf(t)
    ensures DominantNewline(t) in {LF, CRLF}
  {
    assert |LF| == 1 && |CRLF| == 2;
  }

  /** What the documentation says: CRLF exactly when its endings outnumber bare LF ones. */
  ghost predicate AsDocumented(t: string) {
    DominantNewline(t) == CRLF <==> CountCrlf(t) > CountLf(t) - CountCrlf(t)
  }

  lemma {:induction false} CrlfAreLf(t: string)
    ensures CountCrlf(t) <= CountLf(t)
  {
    if |t| >= 2 {
      if t[0] == '\r' && t[1] == '\n' {
        CrlfAreLf(t[2..]);
        assert t[1..][1..] == t[2..];
      } else {
        CrlfAreLf(t[1..]);
      }
    }
  }

  /** That holds exactly where there is no tie, or no line ending at all. */
  lemma AsDocumentedIff(t: string)
    ensures AsDocumented(t) <==> CountCrlf(t) == 0 || CountCrlf(t) != CountLf(t) - CountCrlf(t)
  {
    hide CountCrlf, CountLf;
    CrlfAreLf(t);
    DominantIsCrlf(t);
  }

  /** A tie is taken for CRLF. */
  lemma TiedEndings()
    ensures CountCrlf("a\nb\r\n") == 1 && CountLf("a\nb\r\n") == 2
    ensures DominantNewline("a\nb\r\n") == CRLF && !AsDocumented("a\nb\r\n")
  {
    var t := "a\nb\r\n";
    CountsOfLine("a", "\nb\r\n");
    CountsOfLine("b", "\r\n");
    CountsOfTerminator(LF, "b\r\n");
    CountsOfTerminator(CRLF, "");
    assert "a" + "\nb\r\n" == t && LF + "b\r\n" == "\nb\r\n" && "b" + "\r\n" == "b\r\n" && CRLF + "" == "\r\n";
    hide CountLf, CountCrlf;
    DominantIsCrlf(t);
  }

  // ----- edit_lines -----

  datatype EditError = InvalidRange

  /** Replaces lines start..end (1-based, inclusive) of the text. */
  method EditLines(text: string, start: int, end: int, newContent: string) returns (r: Result<string, EditError>)
    ensures r.Err? <==> start < 1 || end < start || end > |SplitLines(text)|
    ensures r.Ok? ==>
      r.value == LinesToText(EditedLines(text, start, end, newContent), TrailingNewline(text), DominantNewline(text))
  {
    var lines := SplitLines(text);
    if start < 1 || end < start || end > |lines| {
      return Err(InvalidRange);
    }
    var newLines := lines[..start - 1] + SplitLines(newContent) + lines[end..];
    return Ok(LinesToText(newLines, TrailingNewline(text), DominantNewline(text)));
  }

  /** No line holds a terminator. */
  ghost predicate PlainLines(lines: seq<string>) {
    forall i, k :: 0 <= i < |lines| && 0 <= k < |lines[i]| ==> lines[i][k] != '\n' && lines[i][k] != '\r'
  }

  lemma {:induction false} SplitIsPlain(t: string)
    ensures PlainLines(SplitLines(t))
    decreases |t|
  {
    if t != "" {
      LineParts(t);
      SplitIsPlain(AfterLine(t));
      SplitOne(t);
      hide SplitLines;
    }
  }

  lemma LineThen(line: string, newline: string, rest: string)
    requires forall k :: 0 <= k < |line| ==> line[k] != '\n' && line[k] != '\r'
    requires newline in {LF, CRLF}
    ensures LineLength(line + newline + rest) == |line|
    ensures Terminator(line + newline + rest) == newline && AfterLine(line + newline + rest) == rest
  {
    var t := line + newline + rest;
    assert forall k :: 0 <= k < |line| ==> t[k] == line[k];
    assert t[|line|] == newline[0];
    assert t[|line|..] == newline + rest;
  }

  /** Writing lines with a final newline and reading them back gives the lines. */
  lemma {:induction false} SplitOfWritten(lines: seq<string>, newline: string)
    requires PlainLines(lines) && newline in {LF, CRLF}
    ensures SplitLines(LinesToText(lines, true, newline)) == lines
  {
    assert newline != "";
    hide *;
    if lines == [] {
      WrittenNone(newline);
    } else {
      var line, rest := lines[0], lines[1..];
      PlainTail(lines);
      SplitOfWritten(rest, newline);
      WrittenOne(lines, newline);
      LineThen(line, newline, LinesToText(rest, true, newline));
      var t := line + newline + LinesToText(rest, true, newline);
      SplitOne(t);
      assert t[..|line|] == line;
    }
  }

  lemma WrittenNone(newline: string)
    ensures SplitLines(LinesToText([], true, newline)) == []
  {
  }

  lemma WrittenOne(lines: seq<string>, newline: string)
    requires lines != []
    ensures LinesToText(lines, true, newline) == lines[0] + newline + LinesToText(lines[1..], true, newline)
  {
  }

  lemma SplitOne(t: string)
    requires t != ""
    ensures LineLength(t) <= |t| && SplitLines(t) == [t[..LineLength(t)]] + SplitLines(AfterLine(t))
  {
  }

  lemma PlainTail(lines: seq<string>)
    requires PlainLines(lines) && lines != []
    ensures PlainLines(lines[1..]) && forall k :: 0 <= k < |lines[0]| ==> lines[0][k] != '\n' && lines[0][k] != '\r'
  {
    assert forall i :: 0 <= i < |lines[1..]| ==> lines[1..][i] == lines[i + 1];
  }

  lemma WrittenOpen(lines: seq<string>, newline: string)
    ensures |lines| == 1 ==> LinesToText(lines, false, newline) == lines[0]
    ensures |lines| > 1 ==>
      LinesToText(lines, false, newline) == lines[0] + newline + LinesToText(lines[1..], false, newline)
  {
  }

  lemma SplitAlone(line: string)
    requires forall k :: 0 <= k < |line| ==> line[k] != '\n' && line[k] != '\r'
    ensures SplitLines(line) == if line == "" then [] else [line]
  {
    if line != "" {
      assert LineLength(line) == |line|;
      assert AfterLine(line) == "" && line[..|line|] == line;
    }
  }

  lemma SplitThen(line: string, newline: string, rest: string)
    requires forall k :: 0 <= k < |line| ==> line[k] != '\n' && line[k] != '\r'
    requires newline in {LF, CRLF}
    ensures SplitLines(line + newline + rest) == [line] + SplitLines(rest)
  {
    LineThen(line, newline, rest);
    assert newline != "";
    hide *;
    var t := line + newline + rest;
    SplitOne(t);
    assert t[..|line|] == line;
  }

  lemma SameTail(lines: seq<string>, rest: seq<string>)
    requires lines != []
    ensures [lines[0]] + rest == lines <==> rest == lines[1..]
  {
    assert ([lines[0]] + rest)[1..] == rest;
  }

  /** Written without a final newline, lines are read back exactly when the last is not
      empty: an empty last line leaves no trace. */
  lemma {:induction false} SplitOfOpenIff(lines: seq<string>, newline: string)
    requires PlainLines(lines) && newline in {LF, CRLF}
    ensures SplitLines(LinesToText(lines, false, newline)) == lines <==> lines == [] || lines[|lines| - 1] != ""
  {
    assert newline != "";
    if lines == [] {
    } else {
      hide *;
      PlainTail(lines);
      WrittenOpen(lines, newline);
      if |lines| == 1 {
        SplitAlone(lines[0]);
        assert lines == [lines[0]];
      } else {
        var line, rest := lines[0], lines[1..];
        SplitOfOpenIff(rest, newline);
        SplitThen(line, newline, LinesToText(rest, false, newline));
        SameTail(lines, SplitLines(LinesToText(rest, false, newline)));
      }
    }
  }

  /** The lines an edit leaves: those before and after the range, the new ones between. */
  function EditedLines(text: string, start: int, end: int, newContent: string): seq<string>
    requires 1 <= start <= end <= |SplitLines(text)|
  {
    SplitLines(text)[..start - 1] + SplitLines(newContent) + SplitLines(text)[end..]
  }

  lemma EditedArePlain(text: string, start: int, end: int, newContent: string)
    requires 1 <= start <= end <= |SplitLines(text)|
    ensures PlainLines(EditedLines(text, start, end, newContent))
  {
    SplitIsPlain(text);
    SplitIsPlain(newContent);
    hide SplitLines;
    var before, middle, after := SplitLines(text)[..start - 1], SplitLines(newContent), SplitLines(text)[end..];
    var lines := before + middle + after;
    forall i | 0 <= i < |lines| ensures lines[i] in SplitLines(text) || lines[i] in middle {
      assert lines[i] ==
        if i < |before| then before[i] else if i < |before + middle| then middle[i - |before|] else after[i - |before + middle|];
    }
  }

  /** The next reader sees the lines of the edit exactly when the file ended in a newline
      or the edit leaves a last line that is not empty. */
  lemma EditedFileReadsBackIff(text: string, start: int, end: int, newContent: string)
    requires 1 <= start <= end <= |SplitLines(text)|
    ensures var lines := EditedLines(text, start, end, newContent);
      SplitLines(LinesToText(lines, TrailingNewline(text), DominantNewline(text))) == lines <==>
      TrailingNewline(text) || lines == [] || lines[|lines| - 1] != ""
  {
    EditedArePlain(text, start, end, newContent);
    hide SplitLines, LinesToText, EditedLines, PlainLines;
    SplitOfWritten(EditedLines(text, start, end, newContent), DominantNewline(text));
    SplitOfOpenIff(EditedLines(text, start, end, newContent), DominantNewline(text));
  }

  /** Removing the last line of a file without a final newline takes the blank line
      before it along, though it is outside the range. */
  lemma BlankLineLost()
    ensures SplitLines("a\n\nb") == ["a", "", "b"] && !TrailingNewline("a\n\nb")
    ensures EditedLines("a\n\nb", 3, 3, "") == ["a", ""]
    ensures SplitLines(LinesToText(["a", ""], false, DominantNewline("a\n\nb"))) != ["a", ""]
  {
    var text := "a\n\nb";
    ThreeLines();
    hide SplitLines, LinesToText;
    NoLines();
    assert EditedLines(text, 3, 3, "") == ["a", ""];
    assert PlainLines(["a", ""]);
    hide PlainLines;
    SplitOfOpenIff(["a", ""], DominantNewline(text));
  }

  lemma NoLines()
    ensures SplitLines("") == []
  {
  }

  lemma ThreeLines()
    ensures SplitLines("a\n\nb") == ["a", "", "b"]
  {
    hide SplitLines;
    SplitThen("a", LF, "\nb");
    SplitThen("", LF, "b");
    SplitAlone("b");
    assert "a" + LF + "\nb" == "a\n\nb" && "" + LF + "b" == "\nb";
  }
}
