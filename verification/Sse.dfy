/** Server-Sent Events as this repository writes and reads them
    (internal/protocol/sse.go). The reader is deliberately simpler than section
    9.2.6 of the WHATWG HTML standard: it trims all white space, dispatches what
    is pending at the end of the stream, and keeps the event name across a blank
    line that has no data. */
module Sse {

  datatype Event = Event(name: string, data: string)

  // ---- Text ----

  /** unicode.IsSpace. */
  predicate IsSpace(c: char) {
    || '\t' <= c <= '\r' || c == ' ' || c == '\U{0085}' || c == '\U{00A0}' || c == '\U{1680}'
    || '\U{2000}' <= c <= '\U{200A}' || c == '\U{2028}' || c == '\U{2029}' || c == '\U{202F}'
    || c == '\U{205F}' || c == '\U{3000}'
  }

  function TrimLeft(s: string): string {
    if s != "" && IsSpace(s[0]) then TrimLeft(s[1..]) else s
  }

  function TrimRight(s: string): string {
    if s != "" && IsSpace(s[|s| - 1]) then TrimRight(s[..|s| - 1]) else s
  }

  function Trim(s: string): string { TrimRight(TrimLeft(s)) }

  predicate Trimmed(s: string) {
    s == "" || (!IsSpace(s[0]) && !IsSpace(s[|s| - 1]))
  }

  lemma TrimOfTrimmed(s: string)
    requires Trimmed(s)
    ensures Trim(s) == s && Trim(" " + s) == s
  {
    assert TrimLeft(" " + s) == TrimLeft(s) by { assert (" " + s)[1..] == s; }
  }

  /** White space around a string makes no difference to Trim. */
  lemma {:induction false} TrimOfSpaced(s: string, c: char)
    requires IsSpace(c)
    ensures Trim([c] + s) == Trim(s) && Trim(s + [c]) == Trim(s)
  {
    assert ([c] + s)[1..] == s;
    TrimLeftSpaced(s, c);
    if TrimLeft(s) != "" {
      assert (TrimLeft(s) + [c])[..|TrimLeft(s)|] == TrimLeft(s);
    }
  }

  lemma {:induction false} TrimLeftSpaced(s: string, c: char)
    requires IsSpace(c)
    ensures TrimLeft(s + [c]) == if TrimLeft(s) == "" then "" else TrimLeft(s) + [c]
  {
    if s == "" {
      assert (s + [c])[1..] == "";
    } else {
      assert (s + [c])[1..] == s[1..] + [c];
      if IsSpace(s[0]) {
        TrimLeftSpaced(s[1..], c);
      }
    }
  }

  lemma {:induction false} TrimRightIsPrefix(s: string)
    ensures TrimRight(s) <= s
  {
    if s != "" && IsSpace(s[|s| - 1]) {
      TrimRightIsPrefix(s[..|s| - 1]);
    }
  }

  /** Bytes of a character in UTF-8. */
  function Utf8Size(c: char): nat {
    if c < '\U{0080}' then 1 else if c < '\U{0800}' then 2 else if c < '\U{10000}' then 3 else 4
  }

  function ByteLen(s: string): nat {
    if s == "" then 0 else ByteLen(s[..|s| - 1]) + Utf8Size(s[|s| - 1])
  }

  /** The scanner's buffer: a line and its line break must fit into it. */
  const MAX_LINE := 1024 * 1024

  predicate Fits(line: string) { ByteLen(line) < MAX_LINE }

  predicate AllFit(lines: seq<string>) { forall i | 0 <= i < |lines| :: Fits(lines[i]) }

  /** The lines of a stream; text after the last line break counts if there is any. */
  function SplitLines(s: string): (lines: seq<string>)
    ensures lines == [] <==> s == ""
  {
    if s == "" then []
    else
      Prepend(s[0], SplitLines(s[1..]))
  }

  /** The lines once `c` comes before the first of them. */
  function Prepend(c: char, lines: seq<string>): seq<string> {
    if c == '\n' then [""] + lines
    else if lines == [] then [[c]]
    else [[c] + lines[0]] + lines[1..]
  }

  lemma {:induction false} SplitFirstLine(l: string, rest: string)
    requires '\n' !in l
    ensures SplitLines(l + "\n" + rest) == [l] + SplitLines(rest)
  {
    var s := l + "\n" + rest;
    if l == "" {
      assert s[1..] == rest;
    } else {
      assert s[1..] == l[1..] + "\n" + rest;
      SplitFirstLine(l[1..], rest);
      assert ([l[1..]] + SplitLines(rest))[1..] == SplitLines(rest);
      assert [l[0]] + l[1..] == l;
    }
  }

  lemma {:induction false} SplitLastLine(l: string)
    requires '\n' !in l
    ensures SplitLines(l) == if l == "" then [] else [l]
  {
    if |l| == 1 {
      assert l == [l[0]];
    } else if l != "" {
      SplitLastLine(l[1..]);
      assert [l[1..]][1..] == [];
      assert [l[0]] + l[1..] == l;
    }
  }

  /** bufio.ScanLines drops one carriage return before the line break. */
  function DropCr(line: string): string {
    if line != "" && line[|line| - 1] == '\r' then line[..|line| - 1] else line
  }

  function Join(parts: seq<string>): string {
    if parts == [] then ""
    else if |parts| == 1 then parts[0]
    else Join(parts[..|parts| - 1]) + "\n" + parts[|parts| - 1]
  }

  // ---- Writing ----

  function EventLine(e: Event): string { "event: " + e.name }

  function DataLine(e: Event): string { "data: " + e.data }

  function Frame(e: Event): string { EventLine(e) + "\n" + DataLine(e) + "\n\n" }

  function Stream(events: seq<Event>): string {
    if events == [] then "" else Frame(events[0]) + Stream(events[1..])
  }

  /** The first `n` characters of `s`, or all of it. */
  function Take(s: string, n: nat): string {
    if |s| <= n then s else s[..n]
  }

  /** The writer of a response, over a connection that takes `room` characters and
      then breaks. */
  class Writer {
    const room: nat
    var text: string
    /** Everything written so far, taken or not. */
    ghost var attempted: string

    ghost predicate Valid()
      reads this
    {
      text == Take(attempted, room)
    }

    constructor (room: nat)
      ensures Valid() && this.room == room && attempted == ""
    {
      this.room, this.text, this.attempted := room, "", "";
    }

    /** Writes one frame, as far as the connection takes it; `ok` is a nil error. */
    method WriteSse(e: Event) returns (ok: bool)
      requires Valid()
      modifies this
      ensures Valid() && attempted == old(attempted) + Frame(e)
      ensures ok <==> |attempted| <= room
    {
      var frame := "event: " + e.name + "\ndata: " + e.data + "\n\n";
      assert frame == Frame(e);
      TakeMore(attempted, frame, room);
      ok := |text| + |frame| <= room;
      text := text + Take(frame, room - |text|);
      attempted := attempted + frame;
    }
  }

  /** Taking characters part by part. */
  lemma TakeMore(a: string, b: string, room: nat)
    ensures var taken := Take(a, room);
      && |taken| <= room && taken + Take(b, room - |taken|) == Take(a + b, room)
      && (b != "" ==> (|taken| + |b| <= room <==> |a + b| <= room))
  { }

  // ---- Reading ----

  /** The reader's state between lines. */
  datatype Parser = Parser(event: string, data: seq<string>)

  const INITIAL := Parser("", [])

  /** What dispatching the pending event does: nothing without data, not even
      forgetting the event name. */
  function Flush(p: Parser): (Parser, seq<Event>) {
    if p.data == [] then (p, []) else (INITIAL, [Event(p.event, Join(p.data))])
  }

  function Feed(p: Parser, line: string): (Parser, seq<Event>) {
    if line == "" then Flush(p)
    else if ":" <= line then (p, [])
    else if "event:" <= line then (p.(event := Trim(line[6..])), [])
    else if "data:" <= line then (p.(data := p.data + [Trim(line[5..])]), [])
    else (p, [])
  }

  /** The events dispatched from state `p` on, up to the first line that is too
      long, with the final flush. */
  function EventsFrom(p: Parser, lines: seq<string>): seq<Event>
    decreases |lines|
  {
    if lines == [] || !Fits(lines[0]) then Flush(p).1
    else
      var (q, es) := Feed(p, DropCr(lines[0]));
      es + EventsFrom(q, lines[1..])
  }

  /** The events ReadSSE dispatches for a stream, if no callback fails. */
  function Events(input: string): seq<Event> {
    EventsFrom(INITIAL, SplitLines(input))
  }

  /** How far a callback lets the reader get: it is called with the events so
      far, the last one included, and refuses by returning false. */
  function Dispatch(done: seq<Event>, pending: seq<Event>, accept: seq<Event> -> bool): (r: (seq<Event>, bool))
    ensures done <= r.0 <= done + pending
    ensures r.1 ==> r.0 == done + pending
    ensures !r.1 ==> |r.0| > |done| && !accept(r.0)
    decreases |pending|
  {
    if pending == [] then (done, true)
    else
      var next := done + [pending[0]];
      assert done + pending == next + pending[1..];
      if accept(next) then Dispatch(next, pending[1..], accept) else (next, false)
  }

  datatype ReadOutcome = Complete | CallbackFailed | LineTooLong | ReadFailed

  lemma AllFitStep(lines: seq<string>)
    requires lines != []
    ensures AllFit(lines) <==> Fits(lines[0]) && AllFit(lines[1..])
  {
    assert forall i | 0 < i < |lines| :: lines[i] == lines[1..][i - 1];
  }

  /** One line of the read loop, as seen by the callback. */
  lemma DispatchStep(p: Parser, lines: seq<string>, done: seq<Event>, accept: seq<Event> -> bool)
    requires lines != [] && Fits(lines[0])
    ensures var (q, es) := Feed(p, DropCr(lines[0]));
      var after := EventsFrom(q, lines[1..]);
      Dispatch(done, EventsFrom(p, lines), accept) ==
        if es == [] || accept(done + es) then Dispatch(done + es, after, accept) else (done + es, false)
  {
    var (q, es) := Feed(p, DropCr(lines[0]));
    var after := EventsFrom(q, lines[1..]);
    if es == [] {
      assert es + after == after && done + es == done;
    } else {
      assert (es + after)[0] == es[0] && (es + after)[1..] == after && [es[0]] == es;
    }
  }

  /** Reads a stream line by line, dispatching events to the callback `accept`.
      `readFailed` says whether the connection broke after `input`. */
  method ReadSse(input: string, readFailed: bool, accept: seq<Event> -> bool)
      returns (dispatched: seq<Event>, outcome: ReadOutcome)
    ensures (dispatched, outcome != CallbackFailed) == Dispatch([], Events(input), accept)
    ensures outcome != CallbackFailed ==>
      outcome == (if !AllFit(SplitLines(input)) then LineTooLong else if readFailed then ReadFailed else Complete)
  {
    var event, data := "", [];
    dispatched := [];
    outcome := if readFailed then ReadFailed else Complete;
    ghost var goal := Dispatch([], Events(input), accept);
    var rest := input;
    while rest != "" && outcome != LineTooLong
      invariant outcome == LineTooLong || outcome == (if readFailed then ReadFailed else Complete)
      invariant goal ==
        if outcome == LineTooLong then Dispatch(dispatched, Flush(Parser(event, data)).1, accept)
        else Dispatch(dispatched, EventsFrom(Parser(event, data), SplitLines(rest)), accept)
      invariant AllFit(SplitLines(input)) <==> outcome != LineTooLong && AllFit(SplitLines(rest))
      decreases |rest|, outcome != LineTooLong
    {
      var n := ScanLine(rest);
      var line := rest[..n];
      ghost var lines := SplitLines(rest);
      FirstScannedLine(rest, n, lines);
      AllFitStep(lines);
      if !Fits(line) {
        outcome := LineTooLong;
      } else {
        rest := if n < |rest| then rest[n + 1..] else "";
        DispatchStep(Parser(event, data), lines, dispatched, accept);
        line := DropCr(line);
        ghost var fed := Feed(Parser(event, data), line);
        ghost var done := dispatched;
        if line == "" {
          if data != [] {
            dispatched := dispatched + [Event(event, Join(data))];
            if !accept(dispatched) {
              return dispatched, CallbackFailed;
            }
            event, data := "", [];
          }
        } else if ":" <= line {
        } else if "event:" <= line {
          event := Trim(line[6..]);
        } else if "data:" <= line {
          data := data + [Trim(line[5..])];
        }
        assert Parser(event, data) == fed.0 && dispatched == done + fed.1;
      }
    }
    if data != [] {
      dispatched := dispatched + [Event(event, Join(data))];
      if !accept(dispatched) {
        return dispatched, CallbackFailed;
      }
    }
  }

  /** Finds the end of the first line. */
  method ScanLine(s: string) returns (n: nat)
    ensures n <= |s| && '\n' !in s[..n] && (n < |s| ==> s[n] == '\n')
  {
    n := 0;
    while n < |s| && s[n] != '\n'
      invariant n <= |s| && '\n' !in s[..n]
    {
      n := n + 1;
    }
  }

  lemma FirstAndRest(s: string, l: string, rest: string)
    requires s == l + "\n" + rest && '\n' !in l
    ensures SplitLines(s)[0] == l && SplitLines(s)[1..] == SplitLines(rest)
  {
    SplitFirstLine(l, rest);
    assert ([l] + SplitLines(rest))[1..] == SplitLines(rest);
  }

  lemma CutAtBreak(s: string, n: nat)
    requires n < |s| && s[n] == '\n'
    ensures s == s[..n] + "\n" + s[n + 1..]
  { }

  lemma FirstScannedLine(s: string, n: nat, lines: seq<string>)
    requires s != "" && n <= |s| && '\n' !in s[..n] && (n < |s| ==> s[n] == '\n') && lines == SplitLines(s)
    ensures lines[0] == s[..n]
    ensures lines[1..] == if n < |s| then SplitLines(s[n + 1..]) else []
  {
    if n < |s| {
      CutAtBreak(s, n);
      FirstAndRest(s, s[..n], s[n + 1..]);
    } else {
      assert s == s[..n];
      SplitLastLine(s);
    }
  }
}
