/**
 Splitting an output stream into lines. The meaning of one line is a parameter: any
 deterministic function from trimmed non-empty lines to an optional event.
 */
module LineParser {
  import opened Outcomes

  /** The longest line, in bytes, that the stream scanner's 64 KiB buffer can hold. */
  const MAX_LINE: nat := 65535

  // --------------------------------------------------------------- single lines

  predicate Space(c: char) {
    c == ' ' || ('\t' <= c && c <= '\r')
  }

  function TrimLeft(s: string): string {
    if s != "" && Space(s[0]) then TrimLeft(s[1..]) else s
  }

  function TrimRight(s: string): string {
    if s != "" && Space(s[|s| - 1]) then TrimRight(s[..|s| - 1]) else s
  }

  function Trim(s: string): string {
    TrimRight(TrimLeft(s))
  }

  /** What one line stands for: nothing when blank, and surrounding white space never matters. */
  function ParseLine<E>(classify: string -> Option<E>, line: string): Option<E> {
    var t := Trim(line);
    if t == "" then None else classify(t)
  }

  function OfLine<E>(classify: string -> Option<E>, line: string): seq<E> {
    var e := ParseLine(classify, line);
    if e.Some? then [e.value] else []
  }

  function Events<E>(classify: string -> Option<E>, lines: seq<string>): seq<E>
    decreases |lines|
  {
    if lines == [] then []
    else OfLine(classify, lines[0]) + Events(classify, lines[1..])
  }

  /** bytes.Split by '\n': one part more than there are newlines. */
  function Split(s: string): (parts: seq<string>)
    ensures |parts| >= 1
    ensures forall k :: 0 <= k < |parts| ==> '\n' !in parts[k]
    decreases |s|
  {
    if s == "" then [""]
    else
      var rest := Split(s[1..]);
      if s[0] == '\n' then [""] + rest else [[s[0]] + rest[0]] + rest[1..]
  }

  /** The line not yet ended, and the lines before it. */
  function Last(s: string): (line: string)
    ensures '\n' !in line
  {
    Split(s)[|Split(s)| - 1]
  }

  function Complete(s: string): seq<string> {
    Split(s)[..|Split(s)| - 1]
  }

  function Join(parts: seq<string>): string
    requires parts != []
    decreases |parts|
  {
    if |parts| == 1 then parts[0] else parts[0] + "\n" + Join(parts[1..])
  }

  // -------------------------------------------------------------------- trimming

  lemma {:induction false} TrimLeftFirst(s: string)
    ensures TrimLeft(s) == "" || !Space(TrimLeft(s)[0])
  {
    if s != "" && Space(s[0]) {
      TrimLeftFirst(s[1..]);
    }
  }

  lemma {:induction false} TrimRightLast(s: string)
    ensures var t := TrimRight(s); t <= s && (t == "" || !Space(t[|t| - 1]))
  {
    if s != "" && Space(s[|s| - 1]) {
      TrimRightLast(s[..|s| - 1]);
    }
  }

  predicate White(c: char) {
    c as int in {9, 10, 11, 12, 13, 32}
  }

  predicate AllWhite(s: string) {
    forall k :: 0 <= k < |s| ==> White(s[k])
  }

  lemma SpaceIsWhite()
    ensures forall c :: Space(c) <==> White(c)
  {
    forall c: char ensures Space(c) <==> White(c) {
      assert ' ' as int == 32 && '\t' as int == 9 && '\r' as int == 13;
    }
  }

  lemma {:induction false} TrimLeftDrops(s: string) returns (i: nat)
    ensures i <= |s| && TrimLeft(s) == s[i..] && AllWhite(s[..i])
  {
    SpaceIsWhite();
    if s != "" && Space(s[0]) {
      var j := TrimLeftDrops(s[1..]);
      i := j + 1;
      assert s[1..][j..] == s[i..] && s[..i] == [s[0]] + s[1..][..j];
    } else {
      i := 0;
    }
  }

  lemma {:induction false} TrimRightDrops(s: string)
    ensures TrimRight(s) <= s && AllWhite(s[|TrimRight(s)|..])
  {
    SpaceIsWhite();
    if s != "" && Space(s[|s| - 1]) {
      var init := s[..|s| - 1];
      TrimRightDrops(init);
      var j := |TrimRight(init)|;
      assert s[j..] == init[j..] + [s[|s| - 1]];
    }
  }

  /** Trimming takes white space from both ends, all there is, and nothing else. */
  lemma TrimIsSlice(s: string) returns (i: nat, j: nat)
    ensures i <= j <= |s| && Trim(s) == s[i..j]
    ensures AllWhite(s[..i]) && AllWhite(s[j..])
    ensures i < j ==> !White(s[i]) && !White(s[j - 1])
  {
    SpaceIsWhite();
    i := TrimLeftDrops(s);
    var t := s[i..];
    TrimRightDrops(t);
    TrimLeftFirst(s);
    TrimRightLast(t);
    j := i + |Trim(s)|;
    assert s[j..] == t[|Trim(s)|..];
    assert s[i..j] == t[..|Trim(s)|];
  }

  /** A line stands for what its text without the surrounding white space stands for, a white line for nothing. */
  lemma ParseLineMeans<E>(classify: string -> Option<E>, line: string) returns (i: nat, j: nat)
    ensures i <= j <= |line| && AllWhite(line[..i]) && AllWhite(line[j..])
    ensures i < j ==> !White(line[i]) && !White(line[j - 1]) && ParseLine(classify, line) == classify(line[i..j])
    ensures i == j ==> ParseLine(classify, line) == None
  {
    i, j := TrimIsSlice(line);
  }

  lemma TrimTwice(s: string)
    ensures Trim(Trim(s)) == Trim(s)
  {
    TrimLeftFirst(s);
    TrimRightLast(TrimLeft(s));
  }

  /** A carriage return at the end of a line is white space like any other. */
  lemma {:induction false} TrailingSpace(s: string, c: char)
    requires Space(c)
    ensures Trim(s + [c]) == Trim(s)
  {
    if s == "" {
      assert "" + [c] == [c] && [c][1..] == "";
    } else if Space(s[0]) {
      assert (s + [c])[1..] == s[1..] + [c];
      TrailingSpace(s[1..], c);
    } else {
      assert (s + [c])[..|s|] == s;
    }
  }

  // ------------------------------------------------------------ lines and chunks

  /** Splitting loses nothing. */
  lemma {:induction false} JoinSplit(s: string)
    ensures Join(Split(s)) == s
    decreases |s|
  {
    if s != "" {
      JoinSplit(s[1..]);
      var rest := Split(s[1..]);
      if s[0] == '\n' {
        assert ([""] + rest)[1..] == rest;
      } else {
        assert ([[s[0]] + rest[0]] + rest[1..])[1..] == rest[1..];
      }
    }
  }

  /** The lines of two texts put together: the last line of one is continued by the first of the other. */
  function Glue(xs: seq<string>, ys: seq<string>): seq<string>
    requires xs != [] && ys != []
  {
    xs[..|xs| - 1] + [xs[|xs| - 1] + ys[0]] + ys[1..]
  }

  lemma GlueLonger(x: string, xs: seq<string>, ys: seq<string>)
    requires xs != [] && ys != []
    ensures Glue([x] + xs, ys) == [x] + Glue(xs, ys)
  {
    assert ([x] + xs)[..|xs|] == [x] + xs[..|xs| - 1];
  }

  lemma GlueWider(c: char, xs: seq<string>, ys: seq<string>)
    requires xs != [] && ys != []
    ensures Glue([[c] + xs[0]] + xs[1..], ys) == [[c] + Glue(xs, ys)[0]] + Glue(xs, ys)[1..]
  {
    var wide := [[c] + xs[0]] + xs[1..];
    if |xs| == 1 {
      assert ([c] + xs[0]) + ys[0] == [c] + (xs[0] + ys[0]);
      assert wide == [[c] + xs[0]];
    } else {
      GlueLonger(xs[0], xs[1..], ys);
      assert xs == [xs[0]] + xs[1..];
      GlueLonger([c] + xs[0], xs[1..], ys);
    }
  }

  lemma GlueAtEnd(xs: seq<string>, x: string, ys: seq<string>)
    requires ys != []
    ensures Glue(xs + [x], ys) == xs + Glue([x], ys)
  {
    assert (xs + [x])[..|xs|] == xs && [x][..0] == [];
    Regroup(xs, [x + ys[0]], ys[1..]);
  }

  lemma {:induction false} SplitConcat(a: string, b: string)
    ensures Split(a + b) == Glue(Split(a), Split(b))
    decreases |a|
  {
    if a == "" {
      assert a + b == b && "" + Split(b)[0] == Split(b)[0];
      assert Split(b) == [Split(b)[0]] + Split(b)[1..];
    } else {
      assert (a + b)[1..] == a[1..] + b && (a + b)[0] == a[0];
      SplitConcat(a[1..], b);
      if a[0] == '\n' {
        GlueLonger("", Split(a[1..]), Split(b));
      } else {
        GlueWider(a[0], Split(a[1..]), Split(b));
      }
    }
  }

  /** Continuing the remainder with the next chunk splits like the whole text. */
  lemma RemainderCarries(a: string, b: string)
    ensures Split(a + b) == Complete(a) + Split(Last(a) + b)
  {
    SplitConcat(a, b);
    LineIsOnePart(Last(a));
    SplitConcat(Last(a), b);
    GlueAtEnd(Complete(a), Last(a), Split(b));
    assert Complete(a) + [Last(a)] == Split(a);
  }

  lemma {:induction false} LineIsOnePart(s: string)
    requires '\n' !in s
    ensures Split(s) == [s]
    decreases |s|
  {
    if s != "" {
      LineIsOnePart(s[1..]);
      assert [s[0]] + s[1..] == s;
    }
  }

  lemma {:induction false} EventsConcat<E>(classify: string -> Option<E>, xs: seq<string>, ys: seq<string>)
    ensures Events(classify, xs + ys) == Events(classify, xs) + Events(classify, ys)
    decreases |xs|
  {
    if xs == [] {
      assert xs + ys == ys;
    } else {
      assert (xs + ys)[1..] == xs[1..] + ys;
      EventsConcat(classify, xs[1..], ys);
      Regroup(OfLine(classify, xs[0]), Events(classify, xs[1..]), Events(classify, ys));
    }
  }

  /** The events are those of the lines that have one, once each, in the order of the lines. */
  lemma {:induction false} EventsInOrder<E>(classify: string -> Option<E>, lines: seq<string>) returns (from: seq<nat>)
    ensures |from| == |Events(classify, lines)|
    ensures forall i :: 0 <= i < |from| ==> from[i] < |lines| && ParseLine(classify, lines[from[i]]) == Some(Events(classify, lines)[i])
    ensures forall i, j :: 0 <= i < j < |from| ==> from[i] < from[j]
    ensures forall k: nat :: k < |lines| && ParseLine(classify, lines[k]).Some? ==> k in from
    decreases |lines|
  {
    from := [];
    if lines != [] {
      var init, k := lines[..|lines| - 1], |lines| - 1;
      from := EventsInOrder(classify, init);
      EventsOneMore(classify, lines, k);
      assert lines[..k + 1] == lines;
      if ParseLine(classify, lines[k]).Some? {
        from := from + [k];
      }
    }
  }

  // -------------------------------------------------------------- the buffer parser

  datatype Parsed<E> = Parsed(events: seq<E>, remaining: string)

  function Buffered<E>(classify: string -> Option<E>, buffer: string, isComplete: bool): Parsed<E> {
    if isComplete then Parsed(Events(classify, Split(buffer)), "")
    else Parsed(Events(classify, Complete(buffer)), Last(buffer))
  }

  method ParseBuffer<E>(classify: string -> Option<E>, buffer: string, isComplete: bool) returns (events: seq<E>, remaining: string)
    ensures Parsed(events, remaining) == Buffered(classify, buffer, isComplete)
    ensures var lines := Split(buffer); var last := |lines| - 1;
            if isComplete then events == Events(classify, lines) && remaining == ""
            else events == Events(classify, lines[..last]) && remaining == lines[last]
  {
    events := [];
    var lines := Split(buffer);
    for i := 0 to |lines| - 1
      invariant events == Events(classify, lines[..i])
    {
      var line := Trim(lines[i]);
      TrimTwice(lines[i]);
      EventsOneMore(classify, lines, i);
      if line != "" {
        var event := ParseLine(classify, line);
        if event.Some? {
          events := events + [event.value];
        }
      }
    }
    remaining := "";
    var last := lines[|lines| - 1];
    EventsOneMore(classify, lines, |lines| - 1);
    assert lines[..|lines|] == lines;
    if !isComplete && |last| > 0 {
      remaining := last;
    } else if |last| > 0 {
      var event := ParseLine(classify, last);
      if event.Some? {
        events := events + [event.value];
      }
    }
  }

  lemma EventsOneMore<E>(classify: string -> Option<E>, lines: seq<string>, i: nat)
    requires i < |lines|
    ensures Events(classify, lines[..i + 1]) == Events(classify, lines[..i]) + OfLine(classify, lines[i])
  {
    assert lines[..i + 1] == lines[..i] + [lines[i]];
    EventsConcat(classify, lines[..i], [lines[i]]);
  }

  /** Feeding chunks one by one, each prepended with the previous remainder, completing with the last remainder. */
  function Feed<E>(classify: string -> Option<E>, carry: string, chunks: seq<string>): seq<E>
    decreases |chunks|
  {
    if chunks == [] then Buffered(classify, carry, true).events
    else
      var p := Buffered(classify, carry + chunks[0], false);
      p.events + Feed(classify, p.remaining, chunks[1..])
  }

  function Flatten(chunks: seq<string>): string
    decreases |chunks|
  {
    if chunks == [] then "" else chunks[0] + Flatten(chunks[1..])
  }

  /** Chunking does not matter: any cut of the text gives the events of one complete parse. */
  lemma {:induction false} ChunkingDoesNotMatter<E>(classify: string -> Option<E>, carry: string, chunks: seq<string>)
    ensures Feed(classify, carry, chunks) == Buffered(classify, carry + Flatten(chunks), true).events
    decreases |chunks|
  {
    if chunks == [] {
      assert carry + Flatten(chunks) == carry;
    } else {
      var a, b := carry + chunks[0], Flatten(chunks[1..]);
      assert carry + Flatten(chunks) == a + b;
      ChunkingDoesNotMatter(classify, Last(a), chunks[1..]);
      RemainderCarries(a, b);
      EventsConcat(classify, Complete(a), Split(Last(a) + b));
    }
  }

  // -------------------------------------------------------------- the stream parser

  /** The lines bufio.Scanner finds: no empty line after a final newline. */
  function Lines(s: string): seq<string> {
    var parts := Split(s);
    if parts[|parts| - 1] == "" then parts[..|parts| - 1] else parts
  }

  function DropCR(line: string): string {
    if line != "" && line[|line| - 1] == '\r' then line[..|line| - 1] else line
  }

  /** The scanner stops for good at the first line that does not fit its buffer. */
  function Scannable(lines: seq<string>): (n: nat)
    ensures n <= |lines|
    ensures forall k :: 0 <= k < n ==> |lines[k]| <= 65535
    ensures n < |lines| ==> |lines[n]| > 65535
    decreases |lines|
  {
    if lines == [] || |lines[0]| > MAX_LINE then 0 else 1 + Scannable(lines[1..])
  }

  /** A newline ends a line; the text after the last one is a line too unless it is empty. */
  lemma LinesEndTheText(data: string)
    ensures Split(data) == Lines(data) + (if data == "" || data[|data| - 1] == '\n' then [""] else [])
    ensures data != "" && data[|data| - 1] != '\n' ==> Split(data)[|Split(data)| - 1] != ""
  {
    LastIsEmptyIff(data);
    var parts := Split(data);
    var k := |parts| - 1;
    assert parts == parts[..k] + [parts[k]];
  }

  lemma {:induction false} LastIsEmptyIff(data: string)
    ensures Last(data) == "" <==> data == "" || data[|data| - 1] == '\n'
    decreases |data|
  {
    if data != "" {
      LastIsEmptyIff(data[1..]);
    }
  }

  method ParseStream<E>(classify: string -> Option<E>, data: string) returns (events: seq<E>)
    ensures var lines := Lines(data); events == Events(classify, lines[..Scannable(lines)])
  {
    events := [];
    var lines := Lines(data);
    var i := 0;
    while i < |lines| && |lines[i]| <= MAX_LINE
      invariant i <= Scannable(lines)
      invariant events == Events(classify, lines[..i])
    {
      CRIsBlank(lines[i]);
      EventsOneMore(classify, lines, i);
      var event := ParseLine(classify, DropCR(lines[i]));
      if event.Some? {
        events := events + [event.value];
      }
      i := i + 1;
    }
  }

  lemma CRIsBlank(line: string)
    ensures Trim(DropCR(line)) == Trim(line)
  {
    if line != "" && line[|line| - 1] == '\r' {
      TrailingSpace(line[..|line| - 1], '\r');
      assert line == line[..|line| - 1] + ['\r'];
    }
  }

  lemma LinesHaveTheEvents<E>(classify: string -> Option<E>, data: string)
    ensures Events(classify, Lines(data)) == Buffered(classify, data, true).events
  {
    var parts := Split(data);
    if parts[|parts| - 1] == "" {
      EventsOneMore(classify, parts, |parts| - 1);
      assert parts[..|parts|] == parts;
    }
  }

  /**
   The stream parser agrees with one complete parse exactly when nothing is lost after
   the first over-long line: that line and all lines after it hold no event.
   */
  lemma StreamAgreesIff<E>(classify: string -> Option<E>, data: string)
    ensures var lines := Lines(data);
            Events(classify, lines[..Scannable(lines)]) == Buffered(classify, data, true).events
            <==> forall k :: Scannable(lines) <= k < |lines| ==> ParseLine(classify, lines[k]).None?
  {
    LinesHaveTheEvents(classify, data);
    CutAgreesIff(classify, Lines(data), Scannable(Lines(data)));
  }

  lemma CutAgreesIff<E>(classify: string -> Option<E>, lines: seq<string>, n: nat)
    requires n <= |lines|
    ensures Events(classify, lines[..n]) == Events(classify, lines)
            <==> forall k :: n <= k < |lines| ==> ParseLine(classify, lines[k]).None?
  {
    var head, tail := lines[..n], lines[n..];
    assert Events(classify, lines) == Events(classify, head) + Events(classify, tail) by {
      assert lines == head + tail;
      EventsConcat(classify, head, tail);
    }
    EmptyTail(Events(classify, head), Events(classify, tail));
    NoEventsFrom(classify, lines, n);
  }

  lemma EmptyTail<T>(a: seq<T>, b: seq<T>)
    ensures a == a + b <==> b == []
  {
    if b == [] {
      assert a + b == a;
    } else {
      assert |a + b| > |a|;
    }
  }

  lemma {:induction false} NoEventsFrom<E>(classify: string -> Option<E>, lines: seq<string>, n: nat)
    requires n <= |lines|
    ensures Events(classify, lines[n..]) == [] <==> forall k :: n <= k < |lines| ==> ParseLine(classify, lines[k]).None?
    decreases |lines| - n
  {
    if n < |lines| {
      NoEventsFrom(classify, lines, n + 1);
      assert lines[n..][1..] == lines[n + 1..];
    }
  }

  /** In particular they agree whenever every line fits. */
  lemma ShortLinesAgree<E>(classify: string -> Option<E>, data: string)
    requires forall k :: 0 <= k < |Split(data)| ==> |Split(data)[k]| <= 65535
    ensures var lines := Lines(data);
            Events(classify, lines[..Scannable(lines)]) == Buffered(classify, data, true).events
  {
    var lines := Lines(data);
    assert forall k :: 0 <= k < |lines| ==> lines[k] == Split(data)[k];
    assert Scannable(lines) == |lines|;
    StreamAgreesIff(classify, data);
  }
}
