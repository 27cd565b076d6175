/** Server-sent events: the printer, the incremental parser, and why the one
    undoes the other however the stream is cut into chunks. */
module Sse {
  import opened Collections
  import opened Strings

  // ----- splitting -----

  predicate MatchAt(s: string, sep: string, i: nat) {
    i + |sep| <= |s| && s[i..i + |sep|] == sep
  }

  lemma MatchShift(s: string, sep: string)
    requires s != ""
    ensures forall i :: 0 < i < |s| ==> (MatchAt(s, sep, i) <==> MatchAt(s[1..], sep, i - 1))
  {
    forall i | 0 < i < |s| ensures MatchAt(s, sep, i) <==> MatchAt(s[1..], sep, i - 1) {
      var rest := s[1..];
      if i + |sep| <= |s| {
        assert forall k :: i - 1 <= k < i - 1 + |sep| ==> rest[k] == s[k + 1];
        assert rest[i - 1..i - 1 + |sep|] == s[i..i + |sep|];
      }
    }
  }

  /** First position of the separator, |s| when there is none. */
  function Find(s: string, sep: string): (r: nat)
    requires sep != ""
    ensures r <= |s| && (r < |s| ==> MatchAt(s, sep, r))
    ensures forall i :: 0 <= i < r ==> !MatchAt(s, sep, i)
  {
    if MatchAt(s, sep, 0) then 0
    else if s == "" then 0
    else
      var r := Find(s[1..], sep);
      MatchShift(s, sep);
      1 + r
  }

  /** `s.split(sep)`. */
  function Split(s: string, sep: string): (r: seq<string>)
    requires sep != ""
    ensures |r| > 0
  {
    var i := Find(s, sep);
    if i == |s| then [s] else [s[..i]] + Split(s[i + |sep|..], sep)
  }

  const BLANK: string := "\n\n"

  /** The complete frames of a text, and what is left after the last of them. */
  function Frames(text: string): seq<string> {
    var parts := Split(text, BLANK);
    parts[..|parts| - 1]
  }

  function Rest(text: string): string {
    var parts := Split(text, BLANK);
    parts[|parts| - 1]
  }

  lemma {:induction false} FindUnique(s: string, sep: string, i: nat)
    requires sep != "" && MatchAt(s, sep, i) && forall j :: 0 <= j < i ==> !MatchAt(s, sep, j)
    ensures Find(s, sep) == i
  {
  }

  lemma FindInLonger(x: string, y: string, sep: string)
    requires sep != "" && Find(x, sep) < |x|
    ensures Find(x + y, sep) == Find(x, sep)
  {
    var i := Find(x, sep);
    forall j | 0 <= j <= i ensures MatchAt(x + y, sep, j) <==> MatchAt(x, sep, j) {
      assert (x + y)[j..j + |sep|] == x[j..j + |sep|];
    }
    FindUnique(x + y, sep, i);
  }

  lemma FramesNone(text: string)
    requires Find(text, BLANK) == |text|
    ensures Frames(text) == [] && Rest(text) == text
  {
  }

  lemma FramesOne(text: string)
    requires Find(text, BLANK) < |text|
    ensures Find(text, BLANK) + 2 <= |text|
    ensures Frames(text) == [text[..Find(text, BLANK)]] + Frames(text[Find(text, BLANK) + 2..])
    ensures Rest(text) == Rest(text[Find(text, BLANK) + 2..])
  {
    hide *;
    FindBound(text);
    SplitOne(text);
    FramesFrom(text, Find(text, BLANK));
  }

  lemma FramesFrom(text: string, i: nat)
    requires i + 2 <= |text| && BLANK != ""
    requires Split(text, BLANK) == [text[..i]] + Split(text[i + 2..], BLANK)
    ensures Frames(text) == [text[..i]] + Frames(text[i + 2..]) && Rest(text) == Rest(text[i + 2..])
  {
    hide *;
    var rest := text[i + 2..];
    FramesOf(text);
    FramesOf(rest);
    AllButLast(Split(text, BLANK), text[..i], Split(rest, BLANK));
  }

  lemma AllButLast(all: seq<string>, first: string, more: seq<string>)
    requires all == [first] + more && more != []
    ensures all[..|all| - 1] == [first] + more[..|more| - 1] && all[|all| - 1] == more[|more| - 1]
  {
  }

  lemma FramesOf(text: string)
    ensures BLANK != "" && |Split(text, BLANK)| > 0
    ensures Frames(text) == Split(text, BLANK)[..|Split(text, BLANK)| - 1]
    ensures Rest(text) == Split(text, BLANK)[|Split(text, BLANK)| - 1]
  {
  }

  lemma SplitOne(text: string)
    requires Find(text, BLANK) < |text|
    ensures Find(text, BLANK) + 2 <= |text|
    ensures Split(text, BLANK) == [text[..Find(text, BLANK)]] + Split(text[Find(text, BLANK) + 2..], BLANK)
  {
    hide Find;
    assert |BLANK| == 2;
  }

  /** Splitting what has arrived, keeping the rest, and splitting the rest with
      what arrives next gives the same frames as splitting it all. */
  lemma {:induction false} FramesIncremental(x: string, y: string)
    ensures Frames(x + y) == Frames(x) + Frames(Rest(x) + y)
    ensures Rest(x + y) == Rest(Rest(x) + y)
    decreases |x|
  {
    hide *;
    FindBound(x);
    if Find(x, BLANK) == |x| {
      FramesNone(x);
      assert [] + Frames(x + y) == Frames(x + y);
    } else {
      var i := Find(x, BLANK);
      FindInLonger(x, y, BLANK);
      FramesOne(x);
      FramesOne(x + y);
      assert (x + y)[i + 2..] == x[i + 2..] + y && (x + y)[..i] == x[..i];
      FramesIncremental(x[i + 2..], y);
      assert [x[..i]] + Frames(x[i + 2..]) + Frames(Rest(x) + y) ==
             [x[..i]] + (Frames(x[i + 2..]) + Frames(Rest(x) + y));
    }
  }

  function Rejoin(frames: seq<string>): string {
    if frames == [] then "" else frames[0] + BLANK + Rejoin(frames[1..])
  }

  predicate Unbroken(s: string) {
    forall i :: 0 <= i < |s| ==> !MatchAt(s, BLANK, i)
  }

  /** Nothing of the stream is lost, and neither a frame nor what is left holds a blank
      line. */
  lemma {:induction false} FramesLossless(text: string)
    ensures Rejoin(Frames(text)) + Rest(text) == text
    ensures Unbroken(Rest(text)) && forall f :: f in Frames(text) ==> Unbroken(f)
    decreases |text|
  {
    hide Find, Frames, Rest, Split, Unbroken;
    FindBound(text);
    if Find(text, BLANK) == |text| {
      FramesNone(text);
      UnbrokenAll(text);
      assert "" + text == text;
    } else {
      var i := Find(text, BLANK);
      FramesOne(text);
      FramesLossless(text[i + 2..]);
      UnbrokenBefore(text);
      var first, more, rest := text[..i], Frames(text[i + 2..]), Rest(text[i + 2..]);
      assert ([first] + more)[1..] == more;
      assert first + BLANK + Rejoin(more) + rest == first + BLANK + (Rejoin(more) + rest);
    }
  }

  lemma UnbrokenAll(text: string)
    requires Find(text, BLANK) == |text|
    ensures Unbroken(text)
  {
  }

  lemma UnbrokenBefore(text: string)
    requires Find(text, BLANK) < |text|
    ensures Find(text, BLANK) + 2 <= |text| && Unbroken(text[..Find(text, BLANK)])
    ensures text == text[..Find(text, BLANK)] + BLANK + text[Find(text, BLANK) + 2..]
  {
    hide Find, MatchAt;
    FindMatches(text);
    var n := Find(text, BLANK);
    MatchIs(text, n);
    forall i | 0 <= i < n ensures !MatchAt(text[..n], BLANK, i) {
      MatchInPrefix(text, n, i);
    }
    Pieces(text, n);
  }

  lemma MatchIs(text: string, n: nat)
    requires MatchAt(text, BLANK, n)
    ensures n + 2 <= |text| && text[n..n + 2] == BLANK
  {
    assert |BLANK| == 2;
  }

  lemma Pieces(text: string, n: nat)
    requires n + 2 <= |text|
    ensures text == text[..n] + text[n..n + 2] + text[n + 2..]
  {
  }

  lemma FindMatches(text: string)
    requires Find(text, BLANK) < |text|
    ensures MatchAt(text, BLANK, Find(text, BLANK))
    ensures forall i :: 0 <= i < Find(text, BLANK) ==> !MatchAt(text, BLANK, i)
  {
  }

  lemma MatchInPrefix(text: string, n: nat, i: nat)
    requires n <= |text|
    ensures MatchAt(text[..n], BLANK, i) ==> MatchAt(text, BLANK, i)
  {
    if i + |BLANK| <= n {
      assert text[..n][i..i + |BLANK|] == text[i..i + |BLANK|];
    }
  }

  lemma FindBound(x: string)
    ensures BLANK != "" && Find(x, BLANK) <= |x|
  {
  }

  // ----- one frame -----

  /** The event name and data a frame's lines leave, the last of each winning. */
  function Fields(lines: seq<string>, event: string, data: string): (string, string)
    decreases |lines|
  {
    if lines == [] then (event, data)
    else if StartsWith(lines[0], "event:") then Fields(lines[1..], Trim(lines[0][6..]), data)
    else if StartsWith(lines[0], "data:") then Fields(lines[1..], event, Trim(lines[0][5..]))
    else Fields(lines[1..], event, data)
  }

  /** What a frame yields: nothing when blank, without data or with data that does
      not parse. */
  function FrameEvent<V>(part: string, parse: string -> Option<V>): Option<(string, V)> {
    if Trim(part) == "" then None
    else
      var (event, data) := Fields(Split(part, "\n"), "message", "");
      if data == "" then None
      else match parse(data) case None => None case Some(v) => Some((event, v))
  }

  function EventsOf<V>(frames: seq<string>, parse: string -> Option<V>): seq<(string, V)> {
    if frames == [] then []
    else
      var last := FrameEvent(frames[|frames| - 1], parse);
      EventsOf(frames[..|frames| - 1], parse) + (if last.Some? then [last.value] else [])
  }

  lemma {:induction false} EventsOfConcat<V>(a: seq<string>, b: seq<string>, parse: string -> Option<V>)
    ensures EventsOf(a + b, parse) == EventsOf(a, parse) + EventsOf(b, parse)
    decreases |b|
  {
    if b == [] {
      assert a + b == a;
    } else {
      EventsOfConcat(a, b[..|b| - 1], parse);
      assert (a + b)[..|a + b| - 1] == a + b[..|b| - 1];
    }
  }

  // ----- the parser -----

  function Concat(chunks: seq<string>): string {
    if chunks == [] then "" else Concat(chunks[..|chunks| - 1]) + chunks[|chunks| - 1]
  }

  method ParseFrame<V>(part: string, parse: string -> Option<V>) returns (r: Option<(string, V)>)
    ensures r == FrameEvent(part, parse)
  {
    if Trim(part) == "" {
      return None;
    }
    var event, data := "message", "";
    var lines := Split(part, "\n");
    for i := 0 to |lines|
      invariant Fields(lines, "message", "") == Fields(lines[i..], event, data)
    {
      var line := lines[i];
      assert lines[i..][0] == line && lines[i..][1..] == lines[i + 1..];
      if StartsWith(line, "event:") {
        event := Trim(line[6..]);
      } else if StartsWith(line, "data:") {
        data := Trim(line[5..]);
      }
    }
    if data == "" {
      return None;
    }
    var parsed := parse(data);
    return if parsed.None? then None else Some((event, parsed.value));
  }

  /** The events of the whole stream, read chunk by chunk; a last frame without its
      blank line is not yielded. */
  method ParseStream<V>(chunks: seq<string>, parse: string -> Option<V>) returns (events: seq<(string, V)>)
    ensures events == EventsOf(Frames(Concat(chunks)), parse)
  {
    hide Split, Frames, Rest, FrameEvent;
    events := [];
    var buf := "";
    EmptyStream();
    for i := 0 to |chunks|
      invariant events == EventsOf(Frames(Concat(chunks[..i])), parse) && buf == Rest(Concat(chunks[..i]))
    {
      ghost var before := Concat(chunks[..i]);
      FramesIncremental(before, chunks[i]);
      assert chunks[..i + 1][..i] == chunks[..i];
      buf := buf + chunks[i];
      var frames := Frames(buf);
      EventsOfConcat(Frames(before), frames, parse);
      ghost var earlier := events;
      for k := 0 to |frames|
        invariant events == earlier + EventsOf(frames[..k], parse)
      {
        assert frames[..k + 1][..k] == frames[..k];
        var event := ParseFrame(frames[k], parse);
        if event.Some? {
          events := events + [event.value];
        }
      }
      assert frames[..|frames|] == frames;
      buf := Rest(buf);
    }
    assert chunks[..|chunks|] == chunks;
  }

  lemma EmptyStream()
    ensures Frames("") == [] && Rest("") == ""
  {
  }

  // ----- the printer, undone -----

  function Print(event: string, payload: string): string {
    "event: " + event + "\ndata: " + payload + "\n\n"
  }

  /** What `json.dumps` gives and `JSON.parse` takes back: a payload on one line,
      with no space around it. */
  ghost predicate Carries<V>(payload: string, value: V, parse: string -> Option<V>) {
    OneLine(payload) && payload != "" && Trim(payload) == payload && parse(payload) == Some(value)
  }

  lemma {:induction false} SplitLine(a: string, b: string)
    requires OneLine(a)
    ensures Split(a + "\n" + b, "\n") == [a] + Split(b, "\n")
  {
    var s := a + "\n" + b;
    assert MatchAt(s, "\n", |a|);
    forall j | 0 <= j < |a| ensures !MatchAt(s, "\n", j) {
      assert s[j..j + 1] == [a[j]];
      assert a[j] in a;
    }
    FindUnique(s, "\n", |a|);
    assert s[|a| + 1..] == b && s[..|a|] == a;
  }

  lemma SplitLastLine(a: string)
    requires OneLine(a)
    ensures Split(a, "\n") == [a]
  {
    forall j | 0 <= j < |a| ensures !MatchAt(a, "\n", j) {
      assert a[j..j + 1] == [a[j]];
      assert a[j] in a;
    }
  }

  function Body(event: string, payload: string): string {
    "event: " + event + "\n" + ("data: " + payload)
  }

  /** A printed frame ends at its own blank line. */
  lemma FrameOfPrinted(event: string, payload: string, more: string)
    requires OneLine(event) && OneLine(payload) && payload != ""
    ensures Frames(Print(event, payload) + more) == [Body(event, payload)] + Frames(more)
  {
    var body := Body(event, payload);
    var s := Print(event, payload) + more;
    assert s == body + ("\n\n" + more);
    assert s[|body|..|body| + 2] == "\n\n";
    assert MatchAt(s, BLANK, |body|);
    assert BLANK[0] == '\n' && BLANK[1] == '\n';
    forall j | 0 <= j < |body| ensures !MatchAt(s, BLANK, j) {
      BodyHasNoBlank(event, payload, j);
      assert s[j] == body[j];
      assert j + 1 < |body| ==> s[j + 1] == body[j + 1];
      assert s[j..j + 2][0] == s[j] && s[j..j + 2][1] == s[j + 1];
    }
    FindUnique(s, BLANK, |body|);
    hide Split, Frames, Rest;
    FramesOne(s);
    assert s[|body| + 2..] == more && s[..|body|] == body;
  }

  /** Of two neighbouring characters of a body at most one is a newline, and its
      last is none. */
  lemma BodyHasNoBlank(event: string, payload: string, j: nat)
    requires OneLine(event) && OneLine(payload) && payload != "" && j < |Body(event, payload)|
    ensures Body(event, payload)[j] == '\n' ==> j + 1 < |Body(event, payload)| && Body(event, payload)[j + 1] != '\n'
  {
    var a, b := "event: " + event, "data: " + payload;
    assert Body(event, payload) == a + "\n" + b;
    forall k | 0 <= k < |a| ensures a[k] != '\n' {
      if k >= 7 { assert a[k] == event[k - 7] && event[k - 7] in event; }
    }
    forall k | 0 <= k < |b| ensures b[k] != '\n' {
      if k >= 6 { assert b[k] == payload[k - 6] && payload[k - 6] in payload; }
    }
  }

  lemma TrimAfterSpace(s: string)
    ensures Trim(" " + s) == Trim(s)
  {
    assert (" " + s)[1..] == s;
  }

  lemma {:induction false} TrimKeepsSolid(s: string, k: nat)
    requires k < |s| && !IsSpace(s[k])
    ensures Trim(s) != ""
  {
    TrimStartKeeps(s, k);
    var t := TrimStart(s);
    var j :| 0 <= j < |t| && !IsSpace(t[j]);
    TrimEndKeeps(t, j);
  }

  lemma {:induction false} TrimStartKeeps(s: string, k: nat)
    requires k < |s| && !IsSpace(s[k])
    ensures exists j :: 0 <= j < |TrimStart(s)| && !IsSpace(TrimStart(s)[j])
  {
    if IsSpace(s[0]) {
      assert s[1..][k - 1] == s[k];
      TrimStartKeeps(s[1..], k - 1);
      assert TrimStart(s) == TrimStart(s[1..]);
    } else {
      assert !IsSpace(TrimStart(s)[k]);
    }
  }

  lemma {:induction false} TrimEndKeeps(s: string, k: nat)
    requires k < |s| && !IsSpace(s[k])
    ensures TrimEnd(s) != ""
  {
    if IsSpace(s[|s| - 1]) {
      TrimEndKeeps(s[..|s| - 1], k);
    }
  }

  lemma FieldsEvent(line: string, rest: seq<string>, event: string, data: string)
    requires StartsWith(line, "event:")
    ensures Fields([line] + rest, event, data) == Fields(rest, Trim(line[6..]), data)
  {
    assert ([line] + rest)[1..] == rest;
  }

  lemma FieldsData(line: string, rest: seq<string>, event: string, data: string)
    requires StartsWith(line, "data:")
    ensures Fields([line] + rest, event, data) == Fields(rest, event, Trim(line[5..]))
  {
    assert ([line] + rest)[1..] == rest;
    assert line[0] == line[..5][0];
    assert |line| >= 6 ==> line[..6][0] == line[0];
  }

  lemma BodyLines(event: string, payload: string)
    requires OneLine(event) && OneLine(payload)
    ensures Split(Body(event, payload), "\n") == ["event: " + event, "data: " + payload]
    ensures Trim(Body(event, payload)) != ""
  {
    var a, b := "event: " + event, "data: " + payload;
    var body := Body(event, payload);
    assert body == a + "\n" + b;
    assert body[0] == 'e';
    TrimKeepsSolid(body, 0);
    LineOf("event: ", event);
    LineOf("data: ", payload);
    SplitLine(a, b);
    SplitLastLine(b);
  }

  lemma BodyFields(event: string, payload: string)
    ensures Fields(["event: " + event, "data: " + payload], "message", "") == (Trim(event), Trim(payload))
  {
    hide Fields, Trim;
    var a, b := "event: " + event, "data: " + payload;
    assert a[..6] == "event:" && a[6..] == " " + event;
    assert b[..5] == "data:" && b[5..] == " " + payload;
    TrimAfterSpace(event);
    TrimAfterSpace(payload);
    FieldsEvent(a, [b], "message", "");
    FieldsData(b, [], Trim(event), "");
    assert [a] + [b] == [a, b] && [b] + [] == [b];
    FieldsNone(Trim(event), Trim(payload));
  }

  /** A printed body is read back as the event it was printed from, its name
      stripped of surrounding space. */
  lemma BodyRead<V>(event: string, payload: string, value: V, parse: string -> Option<V>)
    requires OneLine(event) && Carries(payload, value, parse)
    ensures FrameEvent(Body(event, payload), parse) == Some((Trim(event), value))
  {
    BodyLines(event, payload);
    BodyFields(event, payload);
    hide Split, Fields, Trim, Body, OneLine;
  }

  lemma FieldsNone(event: string, data: string)
    ensures Fields([], event, data) == (event, data)
  {
  }

  lemma LineOf(prefix: string, s: string)
    requires OneLine(prefix) && OneLine(s)
    ensures OneLine(prefix + s)
  {
  }

  datatype Sent<V> = Sent(event: string, payload: string, value: V)

  function PrintAll<V>(sent: seq<Sent<V>>): string {
    if sent == [] then "" else Print(sent[0].event, sent[0].payload) + PrintAll(sent[1..])
  }

  function Bodies<V>(sent: seq<Sent<V>>): seq<string> {
    if sent == [] then [] else [Body(sent[0].event, sent[0].payload)] + Bodies(sent[1..])
  }

  function Received<V>(sent: seq<Sent<V>>): seq<(string, V)> {
    if sent == [] then [] else [(Trim(sent[0].event), sent[0].value)] + Received(sent[1..])
  }

  ghost predicate Sendable<V>(sent: seq<Sent<V>>, parse: string -> Option<V>) {
    forall i :: 0 <= i < |sent| ==> OneLine(sent[i].event) && Carries(sent[i].payload, sent[i].value, parse)
  }

  lemma {:induction false} FramesOfPrinted<V>(sent: seq<Sent<V>>, parse: string -> Option<V>)
    requires Sendable(sent, parse)
    ensures Frames(PrintAll(sent)) == Bodies(sent)
  {
    if sent == [] {
      EmptyStream();
    } else {
      assert OneLine(sent[0].event) && Carries(sent[0].payload, sent[0].value, parse);
      FrameOfPrinted(sent[0].event, sent[0].payload, PrintAll(sent[1..]));
      assert forall i :: 0 <= i < |sent[1..]| ==> sent[1..][i] == sent[i + 1];
      hide Frames, Body, Print;
      FramesOfPrinted(sent[1..], parse);
    }
  }

  lemma {:induction false} EventsOfBodies<V>(sent: seq<Sent<V>>, parse: string -> Option<V>)
    requires Sendable(sent, parse)
    ensures EventsOf(Bodies(sent), parse) == Received(sent)
  {
    if sent == [] {
    } else {
      hide *;
      SendableParts(sent, parse);
      BodyRead(sent[0].event, sent[0].payload, sent[0].value, parse);
      EventsOfBodies(sent[1..], parse);
      var first := Body(sent[0].event, sent[0].payload);
      EventsOfOne(first, parse);
      EventsOfConcat([first], Bodies(sent[1..]), parse);
      BodiesParts(sent);
    }
  }

  lemma SendableParts<V>(sent: seq<Sent<V>>, parse: string -> Option<V>)
    requires Sendable(sent, parse) && sent != []
    ensures OneLine(sent[0].event) && Carries(sent[0].payload, sent[0].value, parse) && Sendable(sent[1..], parse)
  {
    hide OneLine, Carries;
    assert forall i :: 0 <= i < |sent[1..]| ==> sent[1..][i] == sent[i + 1];
  }

  lemma BodiesParts<V>(sent: seq<Sent<V>>)
    requires sent != []
    ensures Bodies(sent) == [Body(sent[0].event, sent[0].payload)] + Bodies(sent[1..])
    ensures Received(sent) == [(Trim(sent[0].event), sent[0].value)] + Received(sent[1..])
  {
  }

  lemma EventsOfOne<V>(frame: string, parse: string -> Option<V>)
    ensures var e := FrameEvent(frame, parse); EventsOf([frame], parse) == if e.Some? then [e.value] else []
  {
    hide FrameEvent;
    assert [frame][..0] == [];
  }

  /** However the printed stream is cut into chunks, exactly the events sent come
      out, in order. */
  lemma StreamRoundTrip<V>(sent: seq<Sent<V>>, chunks: seq<string>, parse: string -> Option<V>)
    requires Sendable(sent, parse) && Concat(chunks) == PrintAll(sent)
    ensures EventsOf(Frames(Concat(chunks)), parse) == Received(sent)
  {
    FramesOfPrinted(sent, parse);
    EventsOfBodies(sent, parse);
  }
}
