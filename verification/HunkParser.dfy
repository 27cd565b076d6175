/** Reading a unified diff, line by line, into hunks. */
module HunkParser {
  import opened Collections
  import opened Strings
  import opened EditTools

  // ----- hunk headers: ^@@ -(\d+)(?:,\d+)? \+\d+(?:,\d+)? @@ -----

  function LeadingDigits(s: string): (r: nat)
    ensures r <= |s|
  {
    if s == "" || !IsDigit(s[0]) then 0 else 1 + LeadingDigits(s[1..])
  }

  function NumberOf(digits: string): nat {
    if digits == "" then 0
    else
      var last := digits[|digits| - 1] as int - '0' as int;
      10 * NumberOf(digits[..|digits| - 1]) + (if 0 <= last <= 9 then last else 0)
  }

  /** What follows a number and its optional count, or None without a number. */
  function AfterRange(s: string): Option<string> {
    if LeadingDigits(s) == 0 then None
    else
      var rest := s[LeadingDigits(s)..];
      if StartsWith(rest, ",") && LeadingDigits(rest[1..]) > 0 then Some(rest[1 + LeadingDigits(rest[1..])..])
      else Some(rest)
  }

  /** The old start named by a header line; None for any other line. */
  function HeaderStart(line: string): Option<nat> {
    if !StartsWith(line, "@@ -") then None
    else
      var ranges := line[4..];
      match AfterRange(ranges)
      case None => None
      case Some(middle) =>
        if !StartsWith(middle, " +") then None
        else
          match AfterRange(middle[2..])
          case None => None
          case Some(tail) =>
            if StartsWith(tail, " @@") then Some(NumberOf(ranges[..LeadingDigits(ranges)])) else None
  }

  // ----- the parser -----

  function Flush(hunks: seq<Hunk>, current: Option<Hunk>): seq<Hunk> {
    match current case None => hunks case Some(h) => hunks + [h]
  }

  /** The hunks finally found, given those finished and the one being read. */
  function Scan(lines: seq<string>, hunks: seq<Hunk>, current: Option<Hunk>): seq<Hunk>
    decreases |lines|
  {
    if lines == [] then Flush(hunks, current)
    else if HeaderStart(lines[0]).Some? then
      Scan(lines[1..], Flush(hunks, current), Some(Hunk(HeaderStart(lines[0]).value, [])))
    else if current.None? || StartsWith(lines[0], "\\") then Scan(lines[1..], hunks, current)
    else Scan(lines[1..], hunks, Some(Hunk(current.value.oldStart, current.value.lines + [lines[0]])))
  }

  /** The hunks of the patch, or None when it has none. */
  method ParseHunks(lines: seq<string>) returns (r: Option<seq<Hunk>>)
    ensures r == if Scan(lines, [], None) == [] then None else Some(Scan(lines, [], None))
  {
    var hunks: seq<Hunk>, current: Option<Hunk> := [], None;
    for i := 0 to |lines|
      invariant Scan(lines, [], None) == Scan(lines[i..], hunks, current)
    {
      var line := lines[i];
      assert lines[i..][0] == line && lines[i..][1..] == lines[i + 1..];
      var start := HeaderStart(line);
      if start.Some? {
        hunks := Flush(hunks, current);
        current := Some(Hunk(start.value, []));
        continue;
      }
      if current.None? {
        continue;
      }
      if StartsWith(line, "\\") {
        continue;
      }
      current := Some(Hunk(current.value.oldStart, current.value.lines + [line]));
    }
    hunks := Flush(hunks, current);
    return if hunks == [] then None else Some(hunks);
  }

  // ----- printing, and reading it back -----

  function Decimal(n: nat): string {
    if n < 10 then [Digit(n)] else Decimal(n / 10) + [Digit(n % 10)]
  }

  function Digit(d: nat): char
    requires d < 10
  {
    "0123456789"[d]
  }

  /** A range as diff prints it: start, and the count unless left out. */
  function Range(start: nat, count: Option<nat>): string {
    Decimal(start) + (if count.None? then "" else "," + Decimal(count.value))
  }

  function Header(oldStart: nat, oldCount: Option<nat>, newStart: nat, newCount: Option<nat>, heading: string): string {
    "@@ -" + Range(oldStart, oldCount) + " +" + Range(newStart, newCount) + " @@" + heading
  }

  lemma {:induction false} DecimalDigits(n: nat)
    ensures Decimal(n) != "" && forall k :: 0 <= k < |Decimal(n)| ==> IsDigit(Decimal(n)[k])
    ensures NumberOf(Decimal(n)) == n
  {
    if n >= 10 {
      DecimalDigits(n / 10);
      assert Decimal(n)[..|Decimal(n)| - 1] == Decimal(n / 10);
    } else {
      assert Decimal(n)[..0] == "";
    }
  }

  lemma {:induction false} DigitsThen(digits: string, rest: string)
    requires forall k :: 0 <= k < |digits| ==> IsDigit(digits[k])
    requires rest == "" || !IsDigit(rest[0])
    ensures LeadingDigits(digits + rest) == |digits|
  {
    if digits == "" {
      assert digits + rest == rest;
    } else {
      DigitsThen(digits[1..], rest);
      assert (digits + rest)[1..] == digits[1..] + rest;
    }
  }

  /** A number followed by a space. */
  lemma PlainRange(d: string, rest: string)
    requires d != "" && forall k :: 0 <= k < |d| ==> IsDigit(d[k])
    requires rest != "" && rest[0] == ' '
    ensures LeadingDigits(d + rest) == |d| && AfterRange(d + rest) == Some(rest)
  {
    DigitsThen(d, rest);
    hide LeadingDigits;
    assert (d + rest)[|d|..] == rest;
  }

  lemma AfterCount(s: string, n: nat, m: nat)
    requires LeadingDigits(s) == n > 0 && n < |s| && s[n] == ',' && LeadingDigits(s[n + 1..]) == m > 0
    ensures m <= |s[n + 1..]| && AfterRange(s) == Some(s[n + 1..][m..])
  {
    hide LeadingDigits;
    var rest := s[n..];
    assert rest[1..] == s[n + 1..] && rest[..1] == ",";
    assert rest[1 + m..] == rest[1..][m..];
  }

  lemma Separators()
    ensures !IsDigit(' ') && !IsDigit(',')
  {
  }

  /** A number, a comma, a count, and a space. */
  lemma CountedRange(d: string, c: string, rest: string)
    requires d != "" && forall k :: 0 <= k < |d| ==> IsDigit(d[k])
    requires c != "" && forall k :: 0 <= k < |c| ==> IsDigit(c[k])
    requires rest != "" && rest[0] == ' '
    ensures LeadingDigits(d + ("," + c + rest)) == |d| && AfterRange(d + ("," + c + rest)) == Some(rest)
  {
    hide *;
    Separators();
    CommaParts(d, c, rest);
    DigitsThen(d, "," + c + rest);
    DigitsThen(c, rest);
    AfterCount(d + ("," + c + rest), |d|, |c|);
  }

  lemma CommaParts(d: string, c: string, rest: string)
    ensures ("," + c + rest)[0] == ','
    ensures (d + ("," + c + rest))[|d|] == ',' && (d + ("," + c + rest))[|d| + 1..] == c + rest
    ensures (c + rest)[|c|..] == rest
  {
    var after := "," + c + rest;
    assert after[1..] == c + rest;
    assert (d + after)[|d|..] == after;
    assert (d + after)[|d| + 1..] == after[1..];
  }

  lemma RangeRead(start: nat, count: Option<nat>, rest: string)
    requires rest != "" && rest[0] == ' '
    ensures AfterRange(Range(start, count) + rest) == Some(rest)
    ensures LeadingDigits(Range(start, count) + rest) == |Decimal(start)| > 0
    ensures (Range(start, count) + rest)[..|Decimal(start)|] == Decimal(start)
  {
    DecimalDigits(start);
    hide AfterRange, LeadingDigits, Decimal, NumberOf;
    var d := Decimal(start);
    if count.None? {
      assert Range(start, count) + rest == d + rest;
      PlainRange(d, rest);
    } else {
      DecimalDigits(count.value);
      assert Range(start, count) + rest == d + ("," + Decimal(count.value) + rest);
      CountedRange(d, Decimal(count.value), rest);
    }
  }

  lemma HeaderParts(ranges: string, middle: string, second: string, tail: string)
    requires AfterRange(ranges) == Some(middle) && middle == " +" + second && AfterRange(second) == Some(tail)
    requires StartsWith(tail, " @@")
    ensures HeaderStart("@@ -" + ranges) == Some(NumberOf(ranges[..LeadingDigits(ranges)]))
  {
    hide AfterRange, LeadingDigits, NumberOf;
    var line := "@@ -" + ranges;
    assert line[4..] == ranges && line[..4] == "@@ -";
    assert middle[2..] == second && middle[..2] == " +";
  }

  /** A printed header is read back, whatever its counts and heading. */
  lemma HeaderRead(oldStart: nat, oldCount: Option<nat>, newStart: nat, newCount: Option<nat>, heading: string)
    ensures HeaderStart(Header(oldStart, oldCount, newStart, newCount, heading)) == Some(oldStart)
  {
    hide *;
    var tail := " @@" + heading;
    var second := Range(newStart, newCount) + tail;
    var middle := " +" + second;
    var ranges := Range(oldStart, oldCount) + middle;
    HeaderIs(oldStart, oldCount, newStart, newCount, heading);
    assert Header(oldStart, oldCount, newStart, newCount, heading) == "@@ -" + ranges;
    RangeRead(oldStart, oldCount, middle);
    RangeRead(newStart, newCount, tail);
    TailStarts(heading);
    HeaderParts(ranges, middle, second, tail);
    DecimalDigits(oldStart);
  }

  lemma HeaderIs(oldStart: nat, oldCount: Option<nat>, newStart: nat, newCount: Option<nat>, heading: string)
    ensures Header(oldStart, oldCount, newStart, newCount, heading) ==
      "@@ -" + Range(oldStart, oldCount) + " +" + Range(newStart, newCount) + " @@" + heading
  {
  }

  lemma TailStarts(heading: string)
    ensures StartsWith(" @@" + heading, " @@")
  {
    assert (" @@" + heading)[..3] == " @@";
  }

  /** One hunk as diff prints it, with or without the missing-newline marker. */
  datatype Printed = Printed(hunk: Hunk, oldCount: Option<nat>, newStart: nat, newCount: Option<nat>,
                             heading: string, marker: Option<string>)

  function Print(p: Printed): seq<string> {
    [Header(p.hunk.oldStart, p.oldCount, p.newStart, p.newCount, p.heading)] + p.hunk.lines +
      (if p.marker.None? then [] else ["\\" + p.marker.value])
  }

  function PrintAll(ps: seq<Printed>): seq<string> {
    if ps == [] then [] else Print(ps[0]) + PrintAll(ps[1..])
  }

  function HunksOf(ps: seq<Printed>): seq<Hunk> {
    if ps == [] then [] else [ps[0].hunk] + HunksOf(ps[1..])
  }

  lemma LineIsBody(line: string)
    requires GoodLine(line)
    ensures HeaderStart(line).None? && !StartsWith(line, "\\")
  {
  }

  lemma ScanLine(line: string, rest: seq<string>, hunks: seq<Hunk>, h: Hunk)
    requires GoodLine(line)
    ensures Scan([line] + rest, hunks, Some(h)) == Scan(rest, hunks, Some(Hunk(h.oldStart, h.lines + [line])))
  {
    hide HeaderStart, GoodLine, StartsWith;
    LineIsBody(line);
    assert ([line] + rest)[1..] == rest;
  }

  lemma {:induction false} ScanBody(lines: seq<string>, rest: seq<string>, hunks: seq<Hunk>, h: Hunk)
    requires FirstBad(lines).None?
    ensures Scan(lines + rest, hunks, Some(h)) == Scan(rest, hunks, Some(Hunk(h.oldStart, h.lines + lines)))
    decreases |lines|
  {
    if lines == [] {
      assert lines + rest == rest && h.lines + lines == h.lines;
    } else {
      hide Scan;
      assert lines + rest == [lines[0]] + (lines[1..] + rest);
      ScanLine(lines[0], lines[1..] + rest, hunks, h);
      ScanBody(lines[1..], rest, hunks, Hunk(h.oldStart, h.lines + [lines[0]]));
      assert h.lines + [lines[0]] + lines[1..] == h.lines + lines;
    }
  }

  lemma ScanHeader(lines: seq<string>, hunks: seq<Hunk>, current: Option<Hunk>)
    requires lines != [] && HeaderStart(lines[0]).Some?
    ensures Scan(lines, hunks, current) ==
      Scan(lines[1..], Flush(hunks, current), Some(Hunk(HeaderStart(lines[0]).value, [])))
  {
  }

  lemma ScanMarker(note: string, rest: seq<string>, hunks: seq<Hunk>, current: Option<Hunk>)
    ensures Scan(["\\" + note] + rest, hunks, current) == Scan(rest, hunks, current)
  {
    var lines := ["\\" + note] + rest;
    assert lines[0][..1] == "\\" && lines[1..] == rest;
    hide Scan;
    assert |lines[0]| >= 4 ==> lines[0][..4][0] == '\\';
    ScanIgnored(lines, hunks, current);
  }

  lemma ScanIgnored(lines: seq<string>, hunks: seq<Hunk>, current: Option<Hunk>)
    requires lines != [] && HeaderStart(lines[0]).None? && (current.None? || StartsWith(lines[0], "\\"))
    ensures Scan(lines, hunks, current) == Scan(lines[1..], hunks, current)
  {
  }

  lemma ScanOnePrinted(p: Printed, rest: seq<string>, hunks: seq<Hunk>, current: Option<Hunk>)
    requires FirstBad(p.hunk.lines).None?
    ensures Scan(Print(p) + rest, hunks, current) == Scan(rest, Flush(hunks, current), Some(p.hunk))
  {
    hide Scan, HeaderStart, FirstBad, Flush, Header;
    var header := Header(p.hunk.oldStart, p.oldCount, p.newStart, p.newCount, p.heading);
    var marker := if p.marker.None? then [] else ["\\" + p.marker.value];
    var all := [header] + (p.hunk.lines + (marker + rest));
    assert Print(p) + rest == all;
    HeaderRead(p.hunk.oldStart, p.oldCount, p.newStart, p.newCount, p.heading);
    ScanHeader(all, hunks, current);
    assert all[1..] == p.hunk.lines + (marker + rest);
    ScanBody(p.hunk.lines, marker + rest, Flush(hunks, current), Hunk(p.hunk.oldStart, []));
    assert [] + p.hunk.lines == p.hunk.lines;
    if p.marker.Some? {
      ScanMarker(p.marker.value, rest, Flush(hunks, current), Some(p.hunk));
    } else {
      assert marker + rest == rest;
    }
  }

  lemma PrintedParts(ps: seq<Printed>, hunks: seq<Hunk>, current: Option<Hunk>)
    ensures ps == [] ==> Scan(PrintAll(ps), hunks, current) == Flush(hunks, current) && HunksOf(ps) == []
    ensures ps != [] ==>
      PrintAll(ps) == Print(ps[0]) + PrintAll(ps[1..]) && HunksOf(ps) == [ps[0].hunk] + HunksOf(ps[1..])
    ensures current.Some? ==> Flush(hunks, current) == hunks + [current.value]
  {
    hide Print;
  }

  lemma {:induction false} ScanPrinted(ps: seq<Printed>, hunks: seq<Hunk>, current: Option<Hunk>)
    requires forall k :: 0 <= k < |ps| ==> FirstBad(ps[k].hunk.lines).None?
    ensures Scan(PrintAll(ps), hunks, current) == Flush(hunks, current) + HunksOf(ps)
    decreases |ps|
  {
    hide *;
    PrintedParts(ps, hunks, current);
    if ps != [] {
      var done := Flush(hunks, current);
      ScanOnePrinted(ps[0], PrintAll(ps[1..]), hunks, current);
      assert forall k :: 0 <= k < |ps[1..]| ==> ps[1..][k] == ps[k + 1];
      ScanPrinted(ps[1..], done, Some(ps[0].hunk));
      PrintedParts(ps, done, Some(ps[0].hunk));
      assert done + ([ps[0].hunk] + HunksOf(ps[1..])) == done + [ps[0].hunk] + HunksOf(ps[1..]);
    }
  }

  lemma {:induction false} ScanPreamble(preamble: seq<string>, rest: seq<string>)
    requires forall k :: 0 <= k < |preamble| ==> HeaderStart(preamble[k]).None?
    ensures Scan(preamble + rest, [], None) == Scan(rest, [], None)
    decreases |preamble|
  {
    if preamble == [] {
      assert preamble + rest == rest;
    } else {
      assert (preamble + rest)[1..] == preamble[1..] + rest;
      ScanPreamble(preamble[1..], rest);
    }
  }

  /** Printing hunks and parsing the diff gives the hunks back, with any file
      header lines before the first. */
  lemma PrintedHunksParse(preamble: seq<string>, ps: seq<Printed>)
    requires forall k :: 0 <= k < |preamble| ==> HeaderStart(preamble[k]).None?
    requires forall k :: 0 <= k < |ps| ==> FirstBad(ps[k].hunk.lines).None?
    ensures Scan(preamble + PrintAll(ps), [], None) == HunksOf(ps)
  {
    ScanPreamble(preamble, PrintAll(ps));
    ScanPrinted(ps, [], None);
  }
}
