/** What the writer and the reader of Server-Sent Events guarantee together. */
module SseLaws {
  import opened Sse

  // ---- Lines ----

  /** Splitting a stream at a line break splits its lines. */
  lemma {:induction false} SplitLinesAppend(a: string, b: string)
    requires a == "" || a[|a| - 1] == '\n'
    ensures SplitLines(a + b) == SplitLines(a) + SplitLines(b)
  {
    if a == "" {
      assert a + b == b;
    } else {
      assert (a + b)[1..] == a[1..] + b;
      SplitLinesAppend(a[1..], b);
      PrependAppend(a[0], SplitLines(a[1..]), SplitLines(b));
    }
  }

  lemma PrependAppend(c: char, x: seq<string>, y: seq<string>)
    requires c == '\n' || x != []
    ensures Prepend(c, x + y) == Prepend(c, x) + y
  {
    if c != '\n' {
      assert (x + y)[1..] == x[1..] + y;
    }
  }

  // ---- The reader as a machine over lines ----

  /** The reader's state after some lines, none of them too long, and what it
      has dispatched on the way. */
  function Run(p: Parser, lines: seq<string>): (Parser, seq<Event>)
    decreases |lines|
  {
    if lines == [] then (p, [])
    else
      var (q, es) := Feed(p, DropCr(lines[0]));
      var (r, fs) := Run(q, lines[1..]);
      (r, es + fs)
  }

  lemma {:induction false} EventsAfter(p: Parser, a: seq<string>, b: seq<string>)
    requires AllFit(a)
    ensures EventsFrom(p, a + b) == Run(p, a).1 + EventsFrom(Run(p, a).0, b)
    decreases |a|
  {
    if a == [] {
      assert a + b == b;
    } else {
      var (q, es) := Feed(p, DropCr(a[0]));
      assert (a + b)[1..] == a[1..] + b;
      AllFitStep(a);
      EventsAfter(q, a[1..], b);
    }
  }

  /** Lines the reader skips: comments and unknown fields. */
  predicate Ignored(line: string) {
    var l := DropCr(line);
    l != "" && (":" <= l || !("event:" <= l || "data:" <= l))
  }

  function Relevant(lines: seq<string>): seq<string> {
    if lines == [] then []
    else (if Ignored(lines[0]) then [] else [lines[0]]) + Relevant(lines[1..])
  }

  /** Comment lines and unknown fields can be inserted between any two lines
      without changing what is dispatched. */
  lemma {:induction false} CommentsAreInvisible(p: Parser, lines: seq<string>)
    requires AllFit(lines)
    ensures EventsFrom(p, lines) == EventsFrom(p, Relevant(lines))
    decreases |lines|
  {
    if lines != [] {
      AllFitStep(lines);
      var q := Feed(p, DropCr(lines[0])).0;
      CommentsAreInvisible(q, lines[1..]);
      if Ignored(lines[0]) {
        assert Relevant(lines) == Relevant(lines[1..]);
      } else {
        assert Relevant(lines)[1..] == Relevant(lines[1..]);
      }
    }
  }

  /** A blank line changes nothing while no data is pending: the reader does not even
      forget the event name. */
  lemma BlankIsInvisible(p: Parser, a: seq<string>, b: seq<string>)
    requires AllFit(a) && Run(p, a).0.data == []
    ensures EventsFrom(p, a + ([""] + b)) == EventsFrom(p, a + b)
  {
    EventsAfter(p, a, [""] + b);
    EventsAfter(p, a, b);
    BlankFirst(Run(p, a).0, "", b);
  }

  lemma BlankFirst(p: Parser, l: string, b: seq<string>)
    requires l == "" && p.data == []
    ensures EventsFrom(p, [l] + b) == EventsFrom(p, b)
  {
    ReadLine(p, l, b);
    assert Fits(l) && DropCr(l) == l;
  }

  // ---- Line ends and data of several lines ----

  /** The lines as they are if each ends in a carriage return before its break. */
  function WithCr(lines: seq<string>): seq<string> {
    if lines == [] then [] else [lines[0] + "\r"] + WithCr(lines[1..])
  }

  /** A stream with CRLF line ends is read like one with LF line ends. */
  lemma {:induction false} CrLfReadsLikeLf(p: Parser, lines: seq<string>)
    requires AllFit(WithCr(lines)) && forall i | 0 <= i < |lines| :: DropCr(lines[i]) == lines[i]
    ensures EventsFrom(p, WithCr(lines)) == EventsFrom(p, lines)
    decreases |lines|
  {
    if lines != [] {
      var l, rest := lines[0], lines[1..];
      assert WithCr(lines)[0] == l + "\r" && WithCr(lines)[1..] == WithCr(rest);
      AllFitStep(WithCr(lines));
      ByteLenGrows(l, "\r");
      assert DropCr(l + "\r") == l;
      CrLfReadsLikeLf(Feed(p, l).0, rest);
    }
  }

  /** Joining lines as data, and splitting the data again. */
  lemma {:induction false} JoinedLines(parts: seq<string>)
    requires parts != [] && forall i | 0 <= i < |parts| :: '\n' !in parts[i]
    ensures SplitLines(Join(parts) + "\n") == parts
  {
    var front, last := parts[..|parts| - 1], parts[|parts| - 1];
    SplitFirstLine(last, "");
    assert last + "\n" + "" == last + "\n";
    if front != [] {
      JoinedLines(front);
      assert Join(parts) + "\n" == (Join(front) + "\n") + (last + "\n");
      SplitLinesAppend(Join(front) + "\n", last + "\n");
    }
  }

  function DataLines(parts: seq<string>): seq<string> {
    if parts == [] then [] else [DataLine(Event("", parts[0]))] + DataLines(parts[1..])
  }

  lemma {:induction false} ReadDataLines(p: Parser, parts: seq<string>, data: seq<string>)
    requires (forall i | 0 <= i < |parts| :: Trimmed(parts[i])) && data == p.data + parts
    ensures Run(p, DataLines(parts)) == (p.(data := data), [])
    decreases |parts|
  {
    if parts == [] {
      assert data == p.data;
    } else {
      assert data == p.data + [parts[0]] + parts[1..];
      ReadDataLines(p.(data := p.data + [parts[0]]), parts[1..], data);
      ReadDataLine(p, parts[0], DataLines(parts[1..]), data);
    }
  }

  lemma ReadDataLine(p: Parser, part: string, rest: seq<string>, data: seq<string>)
    requires Trimmed(part) && Run(p.(data := p.data + [part]), rest) == (p.(data := data), [])
    ensures Run(p, [DataLine(Event("", part))] + rest) == (p.(data := data), [])
  {
    var e: Event, none: seq<Event> := Event("", part), [];
    var lines := [DataLine(e)] + rest;
    FeedData(p, e);
    assert lines[0] == DataLine(e) && lines[1..] == rest && none + none == none;
  }

  /** Several data lines make one event, whose data is these lines. */
  lemma DataOfSeveralLines(parts: seq<string>) returns (e: Event)
    requires parts != [] && AllFit(DataLines(parts))
    requires forall i | 0 <= i < |parts| :: Trimmed(parts[i]) && '\n' !in parts[i]
    ensures EventsFrom(INITIAL, DataLines(parts) + [""]) == [e] && e.name == ""
    ensures SplitLines(e.data + "\n") == parts
  {
    e := Event("", Join(parts));
    ReadDataLines(INITIAL, parts, parts);
    EventsAfter(INITIAL, DataLines(parts), [""]);
    assert INITIAL.data + parts == parts;
    assert Fits("") && [""][1..] == [];
    JoinedLines(parts);
  }

  // ---- Concatenation ----

  lemma ReadAfter(a: string, b: string)
    requires (a == "" || a[|a| - 1] == '\n') && AllFit(SplitLines(a))
    ensures var (p, es) := Run(INITIAL, SplitLines(a)); Events(a + b) == es + EventsFrom(p, SplitLines(b))
  {
    SplitLinesAppend(a, b);
    EventsAfter(INITIAL, SplitLines(a), SplitLines(b));
  }

  lemma ReadAlone(a: string)
    requires (a == "" || a[|a| - 1] == '\n') && AllFit(SplitLines(a))
    ensures var (p, es) := Run(INITIAL, SplitLines(a)); Events(a) == es + Flush(p).1
  {
    ReadAfter(a, "");
    assert a + "" == a;
  }

  /** Reading `a` then `b` gives the same events as reading them as one stream. */
  predicate Separable(a: string, b: string) {
    Events(a + b) == Events(a) + Events(b)
  }

  lemma ConcatenationFails(a: string, b: string)
    requires (a == "" || a[|a| - 1] == '\n') && AllFit(SplitLines(a))
    requires Run(INITIAL, SplitLines(a)).0 != INITIAL && b == "data:x\n"
    ensures !Separable(a, b)
  {
    var (p, es) := Run(INITIAL, SplitLines(a));
    ReadAfter(a, b);
    ReadAlone(a);
    DataLineAlone(p, b);
    DataLineAlone(INITIAL, b);
    assert Events(a + b) == es + [Event(p.event, Join(p.data + ["x"]))];
    if p.data == [] {
      assert p.data + ["x"] == ["x"] && [] + ["x"] == ["x"];
      assert Events(a) + Events(b) == es + [] + [Event("", "x")];
      assert Events(a + b)[|es|] != (Events(a) + Events(b))[|es|];
    } else {
      assert |Events(a) + Events(b)| == |es| + 2;
    }
  }

  lemma ConcatenationHolds(a: string, b: string)
    requires (a == "" || a[|a| - 1] == '\n') && AllFit(SplitLines(a))
    requires Run(INITIAL, SplitLines(a)).0 == INITIAL
    ensures Separable(a, b)
  {
    var es := Run(INITIAL, SplitLines(a)).1;
    ReadAlone(a);
    ReadAfter(a, b);
    assert Flush(INITIAL).1 == [] && es + [] == es;
  }

  lemma AlwaysSeparable(a: string)
    requires (a == "" || a[|a| - 1] == '\n') && AllFit(SplitLines(a))
    requires Run(INITIAL, SplitLines(a)).0 == INITIAL
    ensures forall b :: Separable(a, b)
  {
    forall b ensures Separable(a, b) { ConcatenationHolds(a, b); }
  }

  predicate AtLineBreak(a: string) { a == "" || a[|a| - 1] == '\n' }

  /** A line that is too long ends the reading, whatever follows. */
  lemma {:induction false} NothingAfterLongLine(p: Parser, a: seq<string>, b: seq<string>)
    requires !AllFit(a)
    ensures EventsFrom(p, a + b) == EventsFrom(p, a)
    decreases |a|
  {
    AllFitStep(a);
    assert (a + b)[1..] == a[1..] + b;
    if Fits(a[0]) {
      NothingAfterLongLine(Feed(p, DropCr(a[0])).0, a[1..], b);
    }
  }

  /** Cuts a stream before its unfinished last line. */
  lemma {:induction false} UnfinishedLine(a: string) returns (whole: string, l: string)
    ensures a == whole + l && AtLineBreak(whole) && '\n' !in l
    ensures !AtLineBreak(a) ==> l != ""
  {
    if AtLineBreak(a) {
      whole, l := a, "";
      assert whole + l == a;
    } else {
      var n := |a| - 1;
      whole, l := UnfinishedLine(a[..n]);
      assert a == whole + (l + [a[n]]);
      l := l + [a[n]];
    }
  }

  /** One last line dispatches at most one event: it does if there are data lines
      before it, or it is one. */
  lemma LastLineDispatches(p: Parser, l: string)
    ensures |EventsFrom(p, [l])| == if p.data != [] || (Fits(l) && "data:" <= DropCr(l)) then 1 else 0
  {
    ReadLine(p, l, []);
    assert [l] + [] == [l];
    FeedDispatches(p, DropCr(l));
  }

  lemma FeedDispatches(p: Parser, l: string)
    ensures var (q, es) := Feed(p, l); |es + Flush(q).1| == if p.data != [] || "data:" <= l then 1 else 0
  {
    if "data:" <= l {
      assert l[0] == 'd';
    }
  }

  /** Going on with an unfinished line never dispatches more than ending it there. */
  lemma GoingOnReadsNoMore(p: Parser, l: string, d: string, m: string)
    requires l != "" && d == "data:x" && m == l + d
    ensures |EventsFrom(p, [m])| <= |EventsFrom(p, [l])|
  {
    LastLineDispatches(p, l);
    LastLineDispatches(p, m);
    ByteLenGrows(l, d);
    assert m[|m| - 1] == 'x' && DropCr(m) == m;
    if "data:" <= m {
      DataNeedsData(l, d, m);
    }
  }

  lemma DataNeedsData(l: string, d: string, m: string)
    requires l != "" && d == "data:x" && m == l + d && "data:" <= m
    ensures "data:" <= DropCr(l)
  {
    assert m[|l|] == 'd';
    assert m[0] == 'd' && m[1] == 'a' && m[2] == 't' && m[3] == 'a' && m[4] == ':';
    assert |l| >= 5;
    assert l[..5] == m[..5];
  }

  lemma {:induction false} ByteLenGrows(l: string, d: string)
    ensures ByteLen(l) <= ByteLen(l + d)
  {
    if d == "" {
      assert l + d == l;
    } else {
      ByteLenGrows(l, d[..|d| - 1]);
      assert (l + d)[..|l + d| - 1] == l + d[..|d| - 1];
    }
  }

  lemma NoMoreEvents(lines: seq<string>, l: string, d: string, m: string)
    requires l != "" && d == "data:x" && m == l + d
    ensures |EventsFrom(INITIAL, lines + [m])| <= |EventsFrom(INITIAL, lines + [l])|
  {
    if AllFit(lines) {
      EventsAfter(INITIAL, lines, [l]);
      EventsAfter(INITIAL, lines, [m]);
      GoingOnReadsNoMore(Run(INITIAL, lines).0, l, d, m);
    } else {
      NothingAfterLongLine(INITIAL, lines, [l]);
      NothingAfterLongLine(INITIAL, lines, [m]);
    }
  }

  lemma Regroup(whole: string, l: string, d: string, br: string)
    ensures whole + l + (d + br) == whole + (l + d + br + "")
  { }

  lemma Terminated(a: string, m: string, br: string)
    ensures a + m + br == a + (m + br + "")
  { }

  lemma OneTerminatedLine(m: string)
    requires '\n' !in m
    ensures SplitLines(m + "\n" + "") == [m]
  {
    SplitFirstLine(m, "");
    assert SplitLines("") == [] && [m] + [] == [m];
  }

  /** The lines of a stream with an unfinished last line `l`, alone and continued. */
  lemma UnfinishedLines(whole: string, l: string, d: string)
    requires AtLineBreak(whole) && '\n' !in l && '\n' !in d && l != ""
    ensures SplitLines(whole + l) == SplitLines(whole) + [l]
    ensures SplitLines(whole + l + (d + "\n")) == SplitLines(whole) + [l + d]
  {
    SplitLinesAppend(whole, l);
    SplitLastLine(l);
    Regroup(whole, l, d, "\n");
    SplitLinesAppend(whole, l + d + "\n" + "");
    OneTerminatedLine(l + d);
  }

  /** A stream that ends inside a line, or that has a line too long, cannot be read
      on its own: `b` is a data line. */
  lemma UnfinishedIsInseparable(a: string, b: string, d: string)
    requires !(AtLineBreak(a) && AllFit(SplitLines(a))) && d == "data:x" && b == d + "\n"
    ensures |Events(a + b)| <= |Events(a)|
  {
    if AtLineBreak(a) {
      SplitLinesAppend(a, b);
      NothingAfterLongLine(INITIAL, SplitLines(a), SplitLines(b));
    } else {
      var whole, l := UnfinishedLine(a);
      UnfinishedLines(whole, l, d);
      NoMoreEvents(SplitLines(whole), l, d, l + d);
    }
  }

  lemma InseparableWitness(a: string) returns (b: string)
    requires !(AtLineBreak(a) && AllFit(SplitLines(a)) && Run(INITIAL, SplitLines(a)).0 == INITIAL)
    ensures !Separable(a, b)
  {
    b :| b == "data:x\n";
    if AtLineBreak(a) && AllFit(SplitLines(a)) {
      ConcatenationFails(a, b);
    } else {
      LongerTogether(a, b);
    }
  }

  lemma LongerTogether(a: string, b: string)
    requires !(AtLineBreak(a) && AllFit(SplitLines(a))) && b == "data:x\n"
    ensures !Separable(a, b)
  {
    var d :| d == "data:x";
    DataLineAlone(INITIAL, b);
    UnfinishedIsInseparable(a, b, d);
  }

  /** Two streams can be read one after the other, whatever the second is, exactly
      when the first ends at a line break, has no line too long, and leaves the
      reader in its initial state. A blank line at the end is not enough: it does
      not make the reader forget an event name. */
  lemma ConcatenationIff(a: string)
    ensures (forall b :: Separable(a, b))
       <==> AtLineBreak(a) && AllFit(SplitLines(a)) && Run(INITIAL, SplitLines(a)).0 == INITIAL
  {
    if AtLineBreak(a) && AllFit(SplitLines(a)) && Run(INITIAL, SplitLines(a)).0 == INITIAL {
      AlwaysSeparable(a);
    } else {
      var b := InseparableWitness(a);
    }
  }

  lemma DataLineAlone(p: Parser, b: string)
    requires b == "data:x\n"
    ensures EventsFrom(p, SplitLines(b)) == [Event(p.event, Join(p.data + ["x"]))]
  {
    var l, x: string :| l == "data:x" && x == "x";
    assert b == l + "\n" + "";
    SplitFirstLine(l, "");
    ReadLine(p, l, []);
    ByteLenBound(l);
    assert l[5..] == x;
    TrimOfTrimmed(x);
    assert SplitLines("") == [] && [l] + [] == [l];
  }

  lemma {:induction false} ByteLenBound(s: string)
    ensures |s| <= ByteLen(s) <= 4 * |s|
  {
    if s != "" {
      ByteLenBound(s[..|s| - 1]);
    }
  }

  // ---- Round trip ----

  predicate OneLine(s: string) { '\n' !in s && '\r' !in s }

  /** An event that WriteSSE renders as two proper lines. */
  predicate Clean(e: Event) {
    OneLine(e.name) && OneLine(e.data) && Trimmed(e.name) && Trimmed(e.data)
  }

  predicate AllClean(events: seq<Event>) { forall i | 0 <= i < |events| :: Clean(events[i]) }

  predicate FrameFits(e: Event) { Fits(EventLine(e)) && Fits(DataLine(e)) }

  lemma FrameSplit(e: Event, rest: string)
    ensures Frame(e) + rest == EventLine(e) + "\n" + (DataLine(e) + "\n" + ("" + "\n" + rest))
  { }

  lemma FrameLines(e: Event, rest: string)
    requires Clean(e)
    ensures SplitLines(Frame(e) + rest) == [EventLine(e)] + ([DataLine(e)] + ([""] + SplitLines(rest)))
  {
    var blank := "" + "\n" + rest;
    FrameSplit(e, rest);
    SplitFirstLine(EventLine(e), DataLine(e) + "\n" + blank);
    SplitFirstLine(DataLine(e), blank);
    SplitFirstLine("", rest);
  }

  lemma ReadLine(p: Parser, l: string, rest: seq<string>)
    ensures EventsFrom(p, [l] + rest) ==
      if Fits(l) then Feed(p, DropCr(l)).1 + EventsFrom(Feed(p, DropCr(l)).0, rest) else Flush(p).1
  {
    assert ([l] + rest)[1..] == rest;
  }

  lemma FeedEventLine(p: Parser, e: Event)
    requires Clean(e)
    ensures Feed(p, DropCr(EventLine(e))) == (p.(event := e.name), [])
  {
    var l := EventLine(e);
    assert l[|l| - 1] == (if e.name == "" then ' ' else e.name[|e.name| - 1]);
    assert l[..6] == "event:" && l[6..] == " " + e.name;
    assert l[0] == 'e';
    TrimOfTrimmed(e.name);
  }

  lemma FeedData(p: Parser, e: Event)
    requires Trimmed(e.data)
    ensures Feed(p, DropCr(DataLine(e))) == (p.(data := p.data + [e.data]), [])
  {
    var l := DataLine(e);
    assert l[|l| - 1] == (if e.data == "" then ' ' else e.data[|e.data| - 1]);
    assert l[..5] == "data:" && l[5..] == " " + e.data;
    assert l[0] == 'd';
    TrimOfTrimmed(e.data);
  }

  /** Reading past one frame dispatches exactly its event; a frame with a line
      that does not fit stops the reader without dispatching anything. */
  lemma ReadFrame(e: Event, rest: string)
    requires Clean(e)
    ensures Events(Frame(e) + rest) == if FrameFits(e) then [e] + Events(rest) else []
  {
    var lines := SplitLines(rest);
    var named, full := Parser(e.name, []), Parser(e.name, [e.data]);
    FrameLines(e, rest);
    FeedEventLine(INITIAL, e);
    FeedData(named, e);
    ReadLine(INITIAL, EventLine(e), [DataLine(e)] + ([""] + lines));
    ReadLine(named, DataLine(e), [""] + lines);
    ReadLine(full, "", lines);
    assert named.data + [e.data] == [e.data];
  }

  /** The events before the first frame that does not fit. */
  function FittingPrefix(events: seq<Event>): seq<Event> {
    if events == [] || !FrameFits(events[0]) then [] else [events[0]] + FittingPrefix(events[1..])
  }

  /** Reading what was written gives back the events, up to the first one that
      does not fit into a line. */
  lemma {:induction false} ReadWritten(events: seq<Event>)
    requires AllClean(events)
    ensures Events(Stream(events)) == FittingPrefix(events)
  {
    if events != [] {
      ReadFrame(events[0], Stream(events[1..]));
      if FrameFits(events[0]) { ReadWritten(events[1..]); }
    }
  }

  lemma {:induction false} FittingPrefixIsAll(events: seq<Event>)
    ensures FittingPrefix(events) == events <==> forall i | 0 <= i < |events| :: FrameFits(events[i])
    ensures |FittingPrefix(events)| <= |events|
  {
    if events != [] {
      FittingPrefixIsAll(events[1..]);
      if FrameFits(events[0]) {
        assert events == [events[0]] + events[1..];
        assert FittingPrefix(events)[1..] == FittingPrefix(events[1..]);
        assert forall i | 0 < i < |events| :: events[i] == events[1..][i - 1];
      }
    }
  }

  /** A line of ASCII characters fits up to one character less than 1 MiB. */
  lemma {:induction false} AsciiFits(l: string)
    requires forall i | 0 <= i < |l| :: l[i] < '\U{0080}'
    ensures ByteLen(l) == |l| && (Fits(l) <==> |l| < 1_048_576)
  {
    if l != "" {
      AsciiFits(l[..|l| - 1]);
    }
  }

  /** Round trip: a written stream is read back unchanged exactly when every line
      of every frame fits into the reader's buffer. */
  lemma RoundTripIff(events: seq<Event>)
    requires AllClean(events)
    ensures Events(Stream(events)) == events <==> forall i | 0 <= i < |events| :: FrameFits(events[i])
  {
    ReadWritten(events);
    FittingPrefixIsAll(events);
  }

  // ---- Truncation ----

  /** `got` is what can be read of `events` cut short anywhere: the first few of
      them, and possibly one more with the next event's name and a trimmed
      prefix of its data, from the flush at the end of the stream. */
  ghost predicate CutShort(events: seq<Event>, got: seq<Event>) {
    got <= events || CutInside(events, got)
  }

  ghost predicate CutInside(events: seq<Event>, got: seq<Event>) {
    && 0 < |got| <= |events|
    && got[..|got| - 1] <= events
    && got[|got| - 1].name == events[|got| - 1].name
    && exists q :: q <= events[|got| - 1].data && got[|got| - 1].data == Trim(q)
  }

  /** The number of characters of a frame before its second colon. */
  function ToColon(e: Event): nat { |EventLine(e)| + 5 }

  /** The number of characters of a frame up to the end of its second line. */
  function ToLineEnd(e: Event): nat { |EventLine(e)| + 1 + |DataLine(e)| }

  /** The reader on a stream of at most one line break. */
  lemma ReadShort(l: string, m: string)
    requires '\n' !in l && '\n' !in m
    ensures SplitLines(l + "\n" + m) == [l] + if m != "" then [m] else []
    ensures m != "" ==> SplitLines(l + "\n" + m + "\n") == SplitLines(l + "\n" + m)
  {
    SplitLastLine(m);
    SplitFirstLine(l, m);
    if m != "" {
      Terminated(l + "\n", m, "\n");
      OneTerminatedLine(m);
      SplitFirstLine(l, m + "\n" + "");
    }
  }

  /** A cut event line leaves nothing to dispatch. */
  lemma FeedCutName(e: Event, p: string)
    requires p <= EventLine(e) && p != ""
    ensures var (q, es) := Feed(INITIAL, DropCr(p)); es == [] && q.data == []
  {
    assert p[0] == EventLine(e)[0] == 'e';
    assert DropCr(p)[0] == 'e';
  }

  /** A stream cut inside the first line of a frame dispatches nothing. */
  lemma CutInName(e: Event, p: string)
    requires Clean(e) && p <= EventLine(e)
    ensures Events(p) == []
  {
    assert '\n' !in EventLine(e);
    SplitLastLine(p);
    if p != "" {
      FeedCutName(e, p);
      ReadLine(INITIAL, p, []);
      assert [p] + [] == [p];
    }
  }

  lemma TrimAfterSpace(q: string)
    ensures Trim(" " + q) == Trim(q)
  {
    assert (" " + q)[1..] == q;
  }

  /** The data value of a cut data line: `q` is what is left of the data. */
  lemma CutValue(e: Event, m: string) returns (q: string)
    requires Clean(e) && |m| >= 5 && m <= DataLine(e)
    ensures "data:" <= m && q <= e.data && Trim(m[5..]) == Trim(q)
    ensures m == DataLine(e) ==> Trim(q) == e.data
    ensures m != DataLine(e) && e.data != "" ==> q < e.data
  {
    var full := DataLine(e);
    assert full[..5] == "data:" && full[5] == ' ' && full[6..] == e.data;
    TrimOfTrimmed(e.data);
    if |m| == 5 {
      assert m[5..] == "";
      q := "";
    } else {
      q := m[6..];
      assert m[5..] == " " + q;
      TrimAfterSpace(q);
    }
  }

  /** What a cut data line does to the reader: nothing, or one trimmed value. */
  lemma FeedCutLine(e: Event, p: Parser, m: string)
    requires Clean(e) && m <= DataLine(e) && m != ""
    ensures Feed(p, DropCr(m)) == (if |m| >= 5 then p.(data := p.data + [Trim(m[5..])]) else p, [])
  {
    assert forall i | 0 <= i < |m| :: m[i] == DataLine(e)[i];
    assert DropCr(m) == m;
    assert m[0] == 'd';
    if |m| >= 5 { var q := CutValue(e, m); }
  }

  lemma ReadCutLine(e: Event, named: Parser, m: string)
    requires Clean(e) && m <= DataLine(e) && m != "" && named == Parser(e.name, [])
    ensures EventsFrom(named, [m]) == if |m| >= 5 && Fits(m) then [Event(e.name, Trim(m[5..]))] else []
  {
    FeedCutLine(e, named, m);
    ReadLine(named, m, []);
    assert [m] + [] == [m];
    if |m| >= 5 { OneValue(e.name, Trim(m[5..])); }
  }

  lemma OneValue(name: string, v: string)
    ensures Flush(Parser(name, [] + [v])).1 == [Event(name, v)]
    ensures Flush(Parser(name, [])).1 == []
  {
    assert [] + [v] == [v];
  }

  /** A stream cut inside the second line of a frame dispatches an event exactly if
      the colon has been reached and the lines fit. */
  lemma ReadCutData(e: Event, m: string)
    requires Clean(e) && m <= DataLine(e)
    ensures Events(EventLine(e) + "\n" + m)
         == if |m| >= 5 && Fits(EventLine(e)) && Fits(m) then [Event(e.name, Trim(m[5..]))] else []
  {
    var l, named := EventLine(e), Parser(e.name, []);
    ReadShort(l, m);
    FeedEventLine(INITIAL, e);
    if m == "" {
      ReadLine(INITIAL, l, []);
    } else {
      ReadLine(INITIAL, l, [m]);
      ReadCutLine(e, named, m);
    }
  }

  /** A frame cut anywhere; `q` is what is left of its data. */
  lemma ReadCutFrame(e: Event, p: string) returns (q: string)
    requires Clean(e) && p < Frame(e)
    ensures |p| <= ToColon(e) ==> Events(p) == []
    ensures ToColon(e) < |p| < ToLineEnd(e) ==>
      && q <= e.data && (e.data != "" ==> q < e.data)
      && Events(p) == if AllFit(SplitLines(p)) then [Event(e.name, Trim(q))] else []
    ensures ToLineEnd(e) <= |p| ==>
      (AllFit(SplitLines(p)) <==> FrameFits(e)) && Events(p) == if FrameFits(e) then [e] else []
  {
    var l, d := EventLine(e), DataLine(e);
    q := "";
    assert Frame(e) == l + "\n" + d + "\n\n";
    if |p| <= |l| {
      CutInName(e, p);
    } else if |p| <= ToLineEnd(e) {
      var m := p[|l| + 1..];
      assert p == l + "\n" + m && m <= d;
      q := ReadCutSecond(e, m);
    } else {
      assert p == l + "\n" + d + "\n";
      ReadShort(l, d);
      q := ReadCutSecond(e, d);
    }
  }

  lemma ReadCutSecond(e: Event, m: string) returns (q: string)
    requires Clean(e) && m <= DataLine(e)
    ensures var p := EventLine(e) + "\n" + m;
      && (|m| < 5 ==> Events(p) == [])
      && (5 <= |m| < |DataLine(e)| ==>
            && q <= e.data && (e.data != "" ==> q < e.data)
            && Events(p) == if AllFit(SplitLines(p)) then [Event(e.name, Trim(q))] else [])
      && (m == DataLine(e) ==>
            (AllFit(SplitLines(p)) <==> FrameFits(e)) && Events(p) == if FrameFits(e) then [e] else [])
  {
    ReadCutData(e, m);
    ReadShort(EventLine(e), m);
    q := "";
    if |m| >= 5 {
      q := CutValue(e, m);
      TwoLinesFit(EventLine(e), m);
    }
  }

  lemma TwoLinesFit(l: string, m: string)
    ensures AllFit([l] + [m]) <==> Fits(l) && Fits(m)
  {
    assert ([l] + [m])[0] == l && ([l] + [m])[1] == m;
  }

  /** Every prefix of a written stream reads as the written events cut short. */
  lemma {:induction false} Truncation(events: seq<Event>, p: string)
    requires AllClean(events) && p <= Stream(events)
    ensures CutShort(events, Events(p))
    decreases |events|
  {
    if events == [] {
      assert p == "";
    } else {
      var e, rest := events[0], Stream(events[1..]);
      var frame := Frame(e);
      if |frame| <= |p| {
        var p' := p[|frame|..];
        assert p == frame + p' && p' <= rest;
        ReadFrame(e, p');
        Truncation(events[1..], p');
        if FrameFits(e) { CutShortLater(events, Events(p')); }
      } else {
        assert p <= frame;
        TruncatedFrame(e, p);
        CutShortFirst(events, Events(p));
      }
    }
  }

  lemma CutShortLater(events: seq<Event>, got: seq<Event>)
    requires events != [] && CutShort(events[1..], got)
    ensures CutShort(events, [events[0]] + got)
  {
    var all := [events[0]] + got;
    assert events == [events[0]] + events[1..];
    if CutInside(events[1..], got) {
      assert all[..|all| - 1] == [events[0]] + got[..|got| - 1];
      assert all[|all| - 1] == got[|got| - 1] && events[|all| - 1] == events[1..][|got| - 1];
    }
  }

  lemma CutShortFirst(events: seq<Event>, got: seq<Event>)
    requires events != [] && CutShort([events[0]], got)
    ensures CutShort(events, got)
  {
    assert [events[0]] <= events;
    if CutInside([events[0]], got) {
      assert got[..0] == [];
    }
  }

  lemma TruncatedFrame(e: Event, p: string)
    requires Clean(e) && p < Frame(e)
    ensures CutShort([e], Events(p))
  {
    var q := ReadCutFrame(e, p);
    if ToColon(e) < |p| < ToLineEnd(e) && AllFit(SplitLines(p)) {
      assert [Event(e.name, Trim(q))][..0] == [];
      assert CutInside([e], Events(p));
    }
  }
}
