/** Unified-diff hunks: how they are applied in place with a running offset, what
    that does to the file, and how it is undone. */
module EditTools {
  import opened Collections

  // ----- Python slices -----

  /** Where a slice bound lands in a list of n elements. */
  function SliceIndex(i: int, n: nat): nat {
    if i < 0 then Max(0, i + n) else Min(i, n)
  }

  function Slice<T>(s: seq<T>, start: int, end: int): seq<T> {
    var lo, hi := SliceIndex(start, |s|), SliceIndex(end, |s|);
    if lo < hi then s[lo..hi] else []
  }

  function SliceAssign<T>(s: seq<T>, start: int, end: int, items: seq<T>): seq<T> {
    var lo, hi := SliceIndex(start, |s|), SliceIndex(end, |s|);
    s[..lo] + items + s[Max(lo, hi)..]
  }

  // ----- hunks -----

  datatype Hunk = Hunk(oldStart: nat, lines: seq<string>)

  datatype PatchError = InvalidLine(line: string) | Mismatch(oldStart: nat)

  predicate GoodLine(line: string) {
    line == "" || line[0] in " -+"
  }

  function TagOf(line: string): char {
    if line == "" then ' ' else line[0]
  }

  function ContentOf(line: string): string {
    if line == "" then "" else line[1..]
  }

  /** The lines the hunk expects to find: context and removals. */
  function OldSide(lines: seq<string>): seq<string> {
    if lines == [] then []
    else
      var last := lines[|lines| - 1];
      OldSide(lines[..|lines| - 1]) + (if TagOf(last) == '+' then [] else [ContentOf(last)])
  }

  /** The lines the hunk leaves: context and additions. */
  function NewSide(lines: seq<string>): seq<string> {
    if lines == [] then []
    else
      var last := lines[|lines| - 1];
      NewSide(lines[..|lines| - 1]) + (if TagOf(last) == '-' then [] else [ContentOf(last)])
  }

  function FirstBad(lines: seq<string>): Option<string> {
    if lines == [] then None else if GoodLine(lines[0]) then FirstBad(lines[1..]) else Some(lines[0])
  }

  /** One hunk applied to `result`, whose lines have moved by `offset`. */
  function Step(result: seq<string>, offset: int, h: Hunk): Result<seq<string>, PatchError> {
    if FirstBad(h.lines).Some? then Err(InvalidLine(FirstBad(h.lines).value))
    else
      var before, start := OldSide(h.lines), h.oldStart - 1 + offset;
      if Slice(result, start, start + |before|) != before then Err(Mismatch(h.oldStart))
      else Ok(SliceAssign(result, start, start + |before|, NewSide(h.lines)))
  }

  function Delta(h: Hunk): int {
    |NewSide(h.lines)| - |OldSide(h.lines)|
  }

  /** The outcome of applying the remaining hunks. */
  function Run(result: seq<string>, offset: int, hunks: seq<Hunk>): Result<seq<string>, PatchError>
    decreases |hunks|
  {
    if hunks == [] then Ok(result)
    else
      match Step(result, offset, hunks[0])
      case Err(e) => Err(e)
      case Ok(next) => Run(next, offset + Delta(hunks[0]), hunks[1..])
  }

  method Sides(lines: seq<string>) returns (r: Result<(seq<string>, seq<string>), PatchError>)
    ensures r == match FirstBad(lines)
      case Some(line) => Err(InvalidLine(line))
      case None => Ok((OldSide(lines), NewSide(lines)))
  {
    var before, after: seq<string> := [], [];
    for i := 0 to |lines|
      invariant FirstBad(lines) == FirstBad(lines[i..])
      invariant before == OldSide(lines[..i]) && after == NewSide(lines[..i])
    {
      var tag, content := TagOf(lines[i]), ContentOf(lines[i]);
      assert lines[i..][0] == lines[i] && lines[i..][1..] == lines[i + 1..];
      assert lines[..i + 1][..i] == lines[..i];
      if tag == ' ' {
        before, after := before + [content], after + [content];
      } else if tag == '-' {
        before := before + [content];
      } else if tag == '+' {
        after := after + [content];
      } else {
        return Err(InvalidLine(lines[i]));
      }
    }
    assert lines[..|lines|] == lines;
    return Ok((before, after));
  }

  method ApplyHunks(original: seq<string>, hunks: seq<Hunk>) returns (r: Result<seq<string>, PatchError>)
    ensures r == Run(original, 0, hunks)
  {
    hide *;
    var result, offset := original, 0;
    for i := 0 to |hunks|
      invariant Run(original, 0, hunks) == Run(result, offset, hunks[i..])
    {
      var h := hunks[i];
      assert hunks[i..][0] == h && hunks[i..][1..] == hunks[i + 1..];
      RunOne(result, offset, hunks[i..]);
      StepCases(result, offset, h);
      var sides := Sides(h.lines);
      if sides.Err? {
        return Err(sides.error);
      }
      var (before, after) := sides.value;
      var start := h.oldStart - 1 + offset;
      var end := start + |before|;
      if Slice(result, start, end) != before {
        return Err(Mismatch(h.oldStart));
      }
      result := SliceAssign(result, start, end, after);
      offset := offset + |after| - |before|;
    }
    RunNone(result, offset);
    return Ok(result);
  }

  lemma StepCases(result: seq<string>, offset: int, h: Hunk)
    ensures Delta(h) == |NewSide(h.lines)| - |OldSide(h.lines)|
    ensures FirstBad(h.lines).Some? ==> Step(result, offset, h) == Err(InvalidLine(FirstBad(h.lines).value))
    ensures FirstBad(h.lines).None? ==>
      Step(result, offset, h) ==
        if Slice(result, h.oldStart - 1 + offset, h.oldStart - 1 + offset + |OldSide(h.lines)|) != OldSide(h.lines)
        then Err(Mismatch(h.oldStart))
        else Ok(SliceAssign(result, h.oldStart - 1 + offset, h.oldStart - 1 + offset + |OldSide(h.lines)|, NewSide(h.lines)))
  {
    hide OldSide, NewSide, FirstBad, Slice, SliceAssign;
  }

  // ----- what applying ordered hunks means -----

  /** Hunks with valid lines and 1-based starts, in order and disjoint, the first
      not before line index `from`. */
  ghost predicate Ordered(hunks: seq<Hunk>, from: nat) {
    hunks != [] ==>
      && FirstBad(hunks[0].lines).None?
      && hunks[0].oldStart >= 1 && hunks[0].oldStart - 1 >= from
      && Ordered(hunks[1..], HunkEnd(hunks[0]))
  }

  /** Index just past the lines the hunk replaces. */
  function HunkEnd(h: Hunk): nat {
    Max(0, h.oldStart - 1) + |OldSide(h.lines)|
  }

  /** The original has the hunk's old side at the hunk's own position. */
  ghost predicate Fits(original: seq<string>, h: Hunk) {
    h.oldStart >= 1 && HunkEnd(h) <= |original| && original[h.oldStart - 1..HunkEnd(h)] == OldSide(h.lines)
  }

  ghost predicate AllFit(original: seq<string>, hunks: seq<Hunk>) {
    forall k :: 0 <= k < |hunks| ==> Fits(original, hunks[k])
  }

  /** All hunks at once: the original from index `from` on, with every old side
      replaced by its new side. */
  function Splice(original: seq<string>, hunks: seq<Hunk>, from: nat): seq<string>
    requires from <= |original| && Ordered(hunks, from) && AllFit(original, hunks)
  {
    if hunks == [] then original[from..]
    else
      assert Fits(original, hunks[0]);
      assert AllFit(original, hunks[1..]) by {
        assert forall k :: 0 <= k < |hunks[1..]| ==> hunks[1..][k] == hunks[k + 1];
      }
      original[from..hunks[0].oldStart - 1] + NewSide(hunks[0].lines) + Splice(original, hunks[1..], HunkEnd(hunks[0]))
  }

  ghost predicate NonEmptyOldSides(hunks: seq<Hunk>) {
    forall k :: 0 <= k < |hunks| ==> OldSide(hunks[k].lines) != []
  }

  /** A hunk that fits replaces its old side where it is in the original. */
  lemma StepFits(original: seq<string>, done: seq<string>, from: nat, h: Hunk)
    requires from <= |original| && FirstBad(h.lines).None? && h.oldStart - 1 >= from && Fits(original, h)
    ensures Step(done + original[from..], |done| - from, h) ==
      Ok(done + original[from..h.oldStart - 1] + NewSide(h.lines) + original[HunkEnd(h)..])
  {
    hide *;
    FitsInside(original, h);
    var before, after := OldSide(h.lines), NewSide(h.lines);
    var result, gap := done + original[from..], original[from..h.oldStart - 1];
    var start := h.oldStart - 1 + (|done| - from);
    StepCases(result, |done| - from, h);
    SliceInside(result, start, start + |before|, after);
    assert result[start..start + |before|] == original[h.oldStart - 1..HunkEnd(h)];
    assert result[..start] == done + gap;
    assert result[start + |before|..] == original[HunkEnd(h)..];
  }

  lemma SliceInside<T>(s: seq<T>, lo: nat, hi: nat, items: seq<T>)
    requires lo <= hi <= |s|
    ensures Slice(s, lo, hi) == s[lo..hi] && SliceAssign(s, lo, hi, items) == s[..lo] + items + s[hi..]
  {
  }

  lemma SliceBeyond<T>(s: seq<T>, lo: nat, hi: nat)
    requires |s| < hi && lo < hi
    ensures |Slice(s, lo, hi)| < hi - lo
  {
  }

  /** A hunk with something to find that does not find it is a mismatch. */
  lemma StepRefuses(original: seq<string>, done: seq<string>, from: nat, h: Hunk)
    requires from <= |original| && FirstBad(h.lines).None? && h.oldStart >= 1 && h.oldStart - 1 >= from
    requires OldSide(h.lines) != [] && !Fits(original, h)
    ensures Step(done + original[from..], |done| - from, h).Err?
  {
    hide *;
    var before := OldSide(h.lines);
    var result := done + original[from..];
    var start := h.oldStart - 1 + (|done| - from);
    StepCases(result, |done| - from, h);
    FitsCases(original, h);
    if HunkEnd(h) <= |original| {
      SliceInside(result, start, start + |before|, []);
      assert result[start..start + |before|] == original[h.oldStart - 1..HunkEnd(h)];
    } else {
      SliceBeyond(result, start, start + |before|);
    }
  }

  lemma FitsCases(original: seq<string>, h: Hunk)
    requires h.oldStart >= 1
    ensures HunkEnd(h) == h.oldStart - 1 + |OldSide(h.lines)|
    ensures Fits(original, h) <==> HunkEnd(h) <= |original| && original[h.oldStart - 1..HunkEnd(h)] == OldSide(h.lines)
  {
  }

  lemma TailFits(original: seq<string>, hunks: seq<Hunk>)
    requires hunks != []
    ensures AllFit(original, hunks) <==> Fits(original, hunks[0]) && AllFit(original, hunks[1..])
    ensures NonEmptyOldSides(hunks) <==> OldSide(hunks[0].lines) != [] && NonEmptyOldSides(hunks[1..])
  {
    assert hunks == [hunks[0]] + hunks[1..];
    assert forall k :: 0 <= k < |hunks[1..]| ==> hunks[1..][k] == hunks[k + 1];
    assert forall k :: 0 < k < |hunks| ==> hunks[k] == hunks[1..][k - 1];
  }

  lemma RunNone(result: seq<string>, offset: int)
    ensures Run(result, offset, []) == Ok(result)
  {
  }

  lemma SpliceNone(original: seq<string>, from: nat)
    requires from <= |original|
    ensures Ordered([], from) && AllFit(original, []) && Splice(original, [], from) == original[from..]
  {
  }

  lemma RunOne(result: seq<string>, offset: int, hunks: seq<Hunk>)
    requires hunks != []
    ensures Step(result, offset, hunks[0]).Err? ==> Run(result, offset, hunks) == Err(Step(result, offset, hunks[0]).error)
    ensures Step(result, offset, hunks[0]).Ok? ==>
      Run(result, offset, hunks) == Run(Step(result, offset, hunks[0]).value, offset + Delta(hunks[0]), hunks[1..])
  {
  }

  lemma SpliceOne(original: seq<string>, hunks: seq<Hunk>, from: nat)
    requires hunks != [] && from <= |original| && Ordered(hunks, from) && AllFit(original, hunks)
    ensures HunkEnd(hunks[0]) <= |original| && Ordered(hunks[1..], HunkEnd(hunks[0])) && AllFit(original, hunks[1..])
    ensures Fits(original, hunks[0]) && FirstBad(hunks[0].lines).None? && from <= hunks[0].oldStart - 1 <= |original|
    ensures Splice(original, hunks, from) ==
      original[from..hunks[0].oldStart - 1] + NewSide(hunks[0].lines) + Splice(original, hunks[1..], HunkEnd(hunks[0]))
  {
    TailFits(original, hunks);
  }

  /** The state of the loop: everything before `from` is done, the rest of the
      original is still in place, and the offset is the difference so far. */
  lemma {:induction false} RunSplices(original: seq<string>, done: seq<string>, from: nat, hunks: seq<Hunk>)
    requires from <= |original| && Ordered(hunks, from) && AllFit(original, hunks)
    ensures Run(done + original[from..], |done| - from, hunks) == Ok(done + Splice(original, hunks, from))
    decreases |hunks|
  {
    hide *;
    if hunks == [] {
      RunNone(done + original[from..], |done| - from);
      SpliceNone(original, from);
    } else {
      var h := hunks[0];
      SpliceOne(original, hunks, from);
      StepFits(original, done, from, h);
      RunOne(done + original[from..], |done| - from, hunks);
      DeltaShift(done, original, from, h);
      var gap, after := original[from..h.oldStart - 1], NewSide(h.lines);
      var rest := Splice(original, hunks[1..], HunkEnd(h));
      RunSplices(original, done + gap + after, HunkEnd(h), hunks[1..]);
      assert done + gap + after + rest == done + (gap + after + rest);
    }
  }

  lemma DeltaShift(done: seq<string>, original: seq<string>, from: nat, h: Hunk)
    requires from <= h.oldStart - 1 <= |original|
    ensures |done + original[from..h.oldStart - 1] + NewSide(h.lines)| - HunkEnd(h) == |done| - from + Delta(h)
  {
  }

  lemma {:induction false} RunRefuses(original: seq<string>, done: seq<string>, from: nat, hunks: seq<Hunk>)
    requires from <= |original| && Ordered(hunks, from) && NonEmptyOldSides(hunks) && !AllFit(original, hunks)
    ensures Run(done + original[from..], |done| - from, hunks).Err?
    decreases |hunks|
  {
    hide *;
    SomeHunk(original, hunks);
    var h := hunks[0];
    TailFits(original, hunks);
    FirstHunk(hunks, from);
    RunOne(done + original[from..], |done| - from, hunks);
    if Fits(original, h) {
      FitsInside(original, h);
      StepFits(original, done, from, h);
      DeltaShift(done, original, from, h);
      RunRefuses(original, done + original[from..h.oldStart - 1] + NewSide(h.lines), HunkEnd(h), hunks[1..]);
    } else {
      StepRefuses(original, done, from, h);
    }
  }

  lemma SomeHunk(original: seq<string>, hunks: seq<Hunk>)
    requires !AllFit(original, hunks)
    ensures hunks != []
  {
  }

  lemma FirstHunk(hunks: seq<Hunk>, from: nat)
    requires hunks != [] && Ordered(hunks, from)
    ensures from <= hunks[0].oldStart - 1 && FirstBad(hunks[0].lines).None? && Ordered(hunks[1..], HunkEnd(hunks[0]))
  {
  }

  lemma FitsInside(original: seq<string>, h: Hunk)
    requires Fits(original, h)
    ensures 1 <= h.oldStart && h.oldStart - 1 <= HunkEnd(h) <= |original|
    ensures HunkEnd(h) == h.oldStart - 1 + |OldSide(h.lines)|
    ensures original[h.oldStart - 1..HunkEnd(h)] == OldSide(h.lines)
  {
  }

  /** Applying ordered hunks with non-empty old sides succeeds exactly when every
      old side is in the original at its own position, and then replaces them all
      at once. */
  lemma AppliesIffFits(original: seq<string>, hunks: seq<Hunk>)
    requires Ordered(hunks, 0) && NonEmptyOldSides(hunks)
    ensures Run(original, 0, hunks).Ok? <==> AllFit(original, hunks)
    ensures AllFit(original, hunks) ==> Run(original, 0, hunks) == Ok(Splice(original, hunks, 0))
  {
    hide *;
    assert [] + original[0..] == original;
    if AllFit(original, hunks) {
      RunSplices(original, [], 0, hunks);
      assert [] + Splice(original, hunks, 0) == Splice(original, hunks, 0);
    } else {
      RunRefuses(original, [], 0, hunks);
    }
  }

  // ----- lines outside the hunks -----

  ghost predicate Outside(hunks: seq<Hunk>, k: nat) {
    forall i :: 0 <= i < |hunks| ==> k < hunks[i].oldStart - 1 || HunkEnd(hunks[i]) <= k
  }

  /** By how much the hunks that end at or before line index k move it. */
  function Shift(hunks: seq<Hunk>, k: nat): int {
    if hunks == [] || k < HunkEnd(hunks[0]) then 0
    else Delta(hunks[0]) + Shift(hunks[1..], k)
  }

  /** A line outside every hunk is still there, moved by the hunks before it. */
  lemma {:induction false} OutsideUntouched(original: seq<string>, hunks: seq<Hunk>, from: nat, k: nat)
    requires from <= k < |original| && Ordered(hunks, from) && AllFit(original, hunks) && Outside(hunks, k)
    ensures 0 <= k - from + Shift(hunks, k) < |Splice(original, hunks, from)|
    ensures Splice(original, hunks, from)[k - from + Shift(hunks, k)] == original[k]
    decreases |hunks|
  {
    if hunks != [] {
      var h := hunks[0];
      assert Fits(original, h);
      assert forall i :: 0 <= i < |hunks[1..]| ==> hunks[1..][i] == hunks[i + 1];
      var gap, after := original[from..h.oldStart - 1], NewSide(h.lines);
      var rest := Splice(original, hunks[1..], HunkEnd(h));
      assert Splice(original, hunks, from) == gap + after + rest;
      if k < h.oldStart - 1 {
        assert gap[k - from] == original[k];
      } else {
        OutsideUntouched(original, hunks[1..], HunkEnd(h), k);
      }
    }
  }

  // ----- undoing a patch -----

  function FlipTag(line: string): string {
    if line == "" then "" else if line[0] == '-' then "+" + line[1..] else if line[0] == '+' then "-" + line[1..] else line
  }

  function FlipAll(lines: seq<string>): seq<string> {
    if lines == [] then [] else FlipAll(lines[..|lines| - 1]) + [FlipTag(lines[|lines| - 1])]
  }

  /** The hunks that undo `hunks`: sides swapped, starts moved to where the new
      sides now are. */
  function Reversed(hunks: seq<Hunk>, offset: int): seq<Hunk> {
    if hunks == [] then []
    else
      var h := hunks[0];
      [Hunk(Max(0, h.oldStart + offset), FlipAll(h.lines))] +
        Reversed(hunks[1..], offset + Delta(h))
  }

  lemma FlipOne(line: string)
    requires GoodLine(line)
    ensures GoodLine(FlipTag(line)) && ContentOf(FlipTag(line)) == ContentOf(line)
    ensures TagOf(FlipTag(line)) == '+' <==> TagOf(line) == '-'
    ensures TagOf(FlipTag(line)) == '-' <==> TagOf(line) == '+'
  {
  }

  /** Swapping the tags swaps the sides. */
  lemma {:induction false} FlipSides(lines: seq<string>)
    requires FirstBad(lines).None?
    ensures OldSide(FlipAll(lines)) == NewSide(lines) && NewSide(FlipAll(lines)) == OldSide(lines)
    ensures FirstBad(FlipAll(lines)).None?
  {
    GoodLines(lines);
    if lines != [] {
      hide TagOf, ContentOf, FlipTag, FirstBad, GoodLine;
      var front, last := lines[..|lines| - 1], lines[|lines| - 1];
      GoodLines(front);
      FlipSides(front);
      FlipOne(last);
      var flipped := FlipAll(lines);
      assert flipped[..|flipped| - 1] == FlipAll(front) && flipped[|flipped| - 1] == FlipTag(last);
      GoodLines(FlipAll(front));
      GoodLines(flipped);
    }
  }

  lemma {:induction false} GoodLines(lines: seq<string>)
    ensures FirstBad(lines).None? <==> forall k :: 0 <= k < |lines| ==> GoodLine(lines[k])
  {
    if lines != [] {
      GoodLines(lines[1..]);
      assert lines == [lines[0]] + lines[1..];
    }
  }

  /** `done` and its undoing run in step: the reversed hunks are ordered, fit the
      patched file, and splice it back into the original. */
  lemma {:induction false} ReverseSplices(original: seq<string>, hunks: seq<Hunk>, from: nat, done: seq<string>)
    requires from <= |original| && Ordered(hunks, from) && AllFit(original, hunks)
    ensures var patched := done + Splice(original, hunks, from);
      var back := Reversed(hunks, |done| - from);
      Ordered(back, |done|) && AllFit(patched, back) && Splice(patched, back, |done|) == original[from..]
    decreases |hunks|
  {
    hide *;
    var patched := done + Splice(original, hunks, from);
    var back := Reversed(hunks, |done| - from);
    ReversedCases(hunks, |done| - from);
    if hunks == [] {
      SpliceNone(original, from);
      SpliceNone(patched, |done|);
      assert patched[|done|..] == original[from..];
    } else {
      var h, rest := hunks[0], hunks[1..];
      SpliceOne(original, hunks, from);
      FitsInside(original, h);
      FlipSides(h.lines);
      DeltaShift(done, original, from, h);
      var before, after := OldSide(h.lines), NewSide(h.lines);
      var gap := original[from..h.oldStart - 1];
      var done' := done + gap + after;
      ReverseSplices(original, rest, HunkEnd(h), done');
      assert patched == done' + Splice(original, rest, HunkEnd(h));
      assert patched[|done| + |gap|..|done'|] == after;
      FitsAt(patched, back[0], |done| + |gap|);
      OrderedFits(patched, back, |done|);
      SpliceOne(patched, back, |done|);
      assert patched[|done|..|done| + |gap|] == gap;
      assert original[from..] == gap + before + original[HunkEnd(h)..];
    }
  }

  lemma ReversedCases(hunks: seq<Hunk>, offset: int)
    ensures hunks == [] ==> Reversed(hunks, offset) == []
    ensures hunks != [] ==>
      |Reversed(hunks, offset)| > 0 &&
      Reversed(hunks, offset)[0] == Hunk(Max(0, hunks[0].oldStart + offset), FlipAll(hunks[0].lines)) &&
      (hunks[0].oldStart + offset >= 0 ==> Reversed(hunks, offset)[0].oldStart == hunks[0].oldStart + offset) &&
      Reversed(hunks, offset)[1..] == Reversed(hunks[1..], offset + Delta(hunks[0]))
  {
  }

  lemma FitsAt(original: seq<string>, h: Hunk, at: nat)
    requires h.oldStart == at + 1 && at + |OldSide(h.lines)| <= |original|
    requires original[at..at + |OldSide(h.lines)|] == OldSide(h.lines)
    ensures Fits(original, h) && HunkEnd(h) == at + |OldSide(h.lines)|
  {
  }

  lemma OrderedFits(original: seq<string>, hunks: seq<Hunk>, from: nat)
    requires hunks != [] && FirstBad(hunks[0].lines).None? && 1 <= hunks[0].oldStart && from <= hunks[0].oldStart - 1
    requires Fits(original, hunks[0]) && Ordered(hunks[1..], HunkEnd(hunks[0])) && AllFit(original, hunks[1..])
    ensures Ordered(hunks, from) && AllFit(original, hunks)
  {
    TailFits(original, hunks);
  }

  /** Applying ordered hunks that fit, and then the reversed ones, gives the
      original back. */
  lemma PatchUndone(original: seq<string>, hunks: seq<Hunk>)
    requires Ordered(hunks, 0) && AllFit(original, hunks)
    ensures Run(original, 0, hunks).Ok?
    ensures Run(Run(original, 0, hunks).value, 0, Reversed(hunks, 0)) == Ok(original)
  {
    hide *;
    assert [] + original[0..] == original == original[0..];
    RunSplices(original, [], 0, hunks);
    ReverseSplices(original, hunks, 0, []);
    var patched := Splice(original, hunks, 0);
    assert [] + patched == patched == [] + patched[0..];
    RunSplices(patched, [], 0, Reversed(hunks, 0));
    assert [] + Splice(patched, Reversed(hunks, 0), 0) == original;
  }

  // ----- hunks that only insert -----

  /** A hunk of additions always applies: it inserts where the slice begins. */
  lemma InsertionAlwaysApplies(result: seq<string>, offset: int, h: Hunk)
    requires FirstBad(h.lines).None? && OldSide(h.lines) == []
    ensures var p := SliceIndex(h.oldStart - 1 + offset, |result|);
      p <= |result| && Run(result, offset, [h]) == Ok(result[..p] + NewSide(h.lines) + result[p..])
  {
    var p := SliceIndex(h.oldStart - 1 + offset, |result|);
    var after := result[..p] + NewSide(h.lines) + result[p..];
    assert Step(result, offset, h) == Ok(after);
    assert Run(result, offset, [h]) == Run(after, offset + Delta(h), [h][1..]);
  }

  /** How many lines the hunks add to the file, or take from it. */
  function Growth(hunks: seq<Hunk>): int {
    if hunks == [] then 0 else Delta(hunks[0]) + Growth(hunks[1..])
  }

  /** Index just past the lines of the original that the hunks are done with. */
  function EndOf(hunks: seq<Hunk>, from: nat): nat {
    if hunks == [] then from else EndOf(hunks[1..], HunkEnd(hunks[0]))
  }

  lemma {:induction false} RunFront(result: seq<string>, offset: int, front: seq<Hunk>, h: Hunk)
    requires Run(result, offset, front).Ok?
    ensures Run(result, offset, front + [h]) == Run(Run(result, offset, front).value, offset + Growth(front), [h])
    decreases |front|
  {
    hide Step, Delta;
    if front == [] {
      assert front + [h] == [h];
    } else {
      assert (front + [h])[0] == front[0] && (front + [h])[1..] == front[1..] + [h];
      RunFront(Step(result, offset, front[0]).value, offset + Delta(front[0]), front[1..], h);
    }
  }

  lemma {:induction false} SpliceSize(original: seq<string>, hunks: seq<Hunk>, from: nat)
    requires from <= |original| && Ordered(hunks, from) && AllFit(original, hunks)
    ensures |Splice(original, hunks, from)| == |original| - from + Growth(hunks)
    ensures from <= EndOf(hunks, from) + Growth(hunks) && EndOf(hunks, from) <= |original|
    decreases |hunks|
  {
    if hunks != [] {
      SpliceOne(original, hunks, from);
      FitsCases(original, hunks[0]);
      hide Splice, Ordered, AllFit, Fits, HunkEnd, OldSide, NewSide;
      SpliceSize(original, hunks[1..], HunkEnd(hunks[0]));
    }
  }

  /** In a unified diff an empty old range names the line of the original to insert
      after, which hunks before it may have moved. The code inserts one line early, or,
      when nothing is left of the lines before, in front of the last line. It inserts at
      the named line only past the end of the file, or at its start when at most one line
      of it is left. */
  lemma InsertionPointIsConventional(original: seq<string>, front: seq<Hunk>, h: Hunk)
    requires Ordered(front, 0) && AllFit(original, front)
    requires FirstBad(h.lines).None? && OldSide(h.lines) == [] && h.oldStart >= EndOf(front, 0)
    ensures var n, moved := |original|, Growth(front);
      var patched := Splice(original, front, 0);
      var p := SliceIndex(h.oldStart - 1 + moved, |patched|);
      && p <= |patched| == n + moved
      && Run(original, 0, front + [h]) == Ok(patched[..p] + NewSide(h.lines) + patched[p..])
      && (p == Min(h.oldStart, n) + moved <==> h.oldStart > n || (h.oldStart + moved == 0 && n + moved <= 1))
  {
    hide *;
    SpliceSize(original, front, 0);
    assert [] + original[0..] == original;
    RunSplices(original, [], 0, front);
    RunFront(original, 0, front, h);
    var moved, patched := Growth(front), Splice(original, front, 0);
    assert [] + patched == patched;
    InsertionAlwaysApplies(patched, moved, h);
    InsertionIndex(h.oldStart, |original|, moved);
  }

  lemma InsertionIndex(oldStart: nat, n: nat, moved: int)
    requires 0 <= oldStart + moved && 0 <= n + moved
    ensures SliceIndex(oldStart - 1 + moved, n + moved) == Min(oldStart, n) + moved <==>
            oldStart > n || (oldStart + moved == 0 && n + moved <= 1)
  {
  }

  lemma InsertAtTopGoesBeforeLastLine()
    ensures Run(["a", "b"], 0, [Hunk(0, ["+x"])]) == Ok(["a", "x", "b"])
  {
    hide *;
    OneAddition();
    InsertionAlwaysApplies(["a", "b"], 0, Hunk(0, ["+x"]));
    InsertionPointOfTop();
    assert ["a", "b"][..1] + ["x"] + ["a", "b"][1..] == ["a", "x", "b"];
  }

  lemma InsertionPointOfTop()
    ensures SliceIndex(-1, 2) == 1
  {
  }

  lemma OneAddition()
    ensures FirstBad(["+x"]).None? && OldSide(["+x"]) == [] && NewSide(["+x"]) == ["x"]
  {
    assert ["+x"][..0] == [] && ["+x"][1..] == [] && "+x"[1..] == "x";
    assert OldSide(["+x"]) == OldSide([]) + [] && NewSide(["+x"]) == NewSide([]) + ["x"];
    assert FirstBad(["+x"][1..]).None?;
  }
}
