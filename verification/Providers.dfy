/** The two implementations of the completion provider, internal/provider/deepseek
    and internal/provider/mock, proved against one contract. A callback is given
    as a function of all the deltas it has been called with, the newest last: it
    says whether that call returns nil. */
module Providers {
  import opened Base
  import opened Protocol
  import opened Sse
  import opened Settings
  import opened Store
  import opened World

  const STOP := "stop"
  const CANCELLED := "cancelled"

  // ---- The contract ----

  /** The deltas, out of all calls, for which the callback returned nil. */
  function Accepted(calls: seq<string>, onDelta: seq<string> -> bool): seq<string> {
    if calls != [] && !onDelta(calls) then calls[..|calls| - 1] else calls
  }

  predicate AllAccepted(calls: seq<string>, onDelta: seq<string> -> bool) {
    calls == [] || (AllAccepted(calls[..|calls| - 1], onDelta) && onDelta(calls))
  }

  /** What every provider call keeps, whenever it is cancelled or fails: nothing is
      delivered after an error of the callback, which fails the call, and without
      an error the full text is exactly what the callback accepted. */
  ghost predicate Honest(calls: seq<string>, onDelta: seq<string> -> bool, c: Completion) {
    && AllAccepted(Accepted(calls, onDelta), onDelta)
    && (Accepted(calls, onDelta) != calls ==> c.Failed?)
    && Contract(Accepted(calls, onDelta), c)
  }

  /** The world after handler `gen` has delivered `ds`, one protocol step each. */
  function DeliverAll(w: World, gen: Gen, ds: seq<string>): World
    requires gen in w.handlers
    ensures gen in DeliverAll(w, gen, ds).handlers
  {
    if ds == [] then w
    else
      var v := DeliverAll(w, gen, ds[..|ds| - 1]);
      Update(v, gen, Inner(v.handlers[gen], Action.Deliver(gen, ds[|ds| - 1])))
  }

  lemma {:induction false} DeliveredAll(w: World, gen: Gen, ds: seq<string>)
    requires gen in w.handlers && w.handlers[gen].phase.Streaming?
    ensures var h, k := w.handlers[gen], DeliverAll(w, gen, ds).handlers[gen];
      k.phase == h.phase && k.deltas == h.deltas + ds && k.frames == h.frames + Tokens(ds)
  {
    if ds != [] {
      var front, last := ds[..|ds| - 1], ds[|ds| - 1];
      DeliveredAll(w, gen, front);
      assert Tokens(ds) == Tokens(front) + [Token(last)];
      assert ds == front + [last];
    }
  }

  /** The step that ends a call in which `accepted` of `calls` were accepted. */
  function LastStep(gen: Gen, calls: seq<string>, accepted: seq<string>, c: Completion): Action {
    if accepted != calls && calls != [] && c.Failed? then Action.DeliveryFails(gen, calls[|calls| - 1], c.message)
    else Action.Return(gen, c)
  }

  lemma LastStepIsLegal(h: Handler, v: World, gen: Gen, calls: seq<string>, onDelta: seq<string> -> bool, c: Completion)
    requires Honest(calls, onDelta, c)
    requires gen in v.handlers && v.handlers[gen].phase.Streaming?
    requires var accepted := Accepted(calls, onDelta);
      v.handlers[gen].deltas == accepted && v.handlers[gen].frames == h.frames + Tokens(accepted)
    ensures var last := LastStep(gen, calls, Accepted(calls, onDelta), c);
      Enabled(v, last) && IsInner(last) && EndsAs(h, Inner(v.handlers[gen], last), Accepted(calls, onDelta), calls, c)
  {
    var accepted := Accepted(calls, onDelta);
    if accepted != calls {
      var d := calls[|calls| - 1];
      assert Tokens(calls) == Tokens(accepted) + [Token(d)];
      AppendIsAssociative(h.frames, Tokens(accepted), [Token(d)]);
    }
  }

  /** Handler `h` has become `k` through a provider call. */
  predicate EndsAs(h: Handler, k: Handler, accepted: seq<string>, calls: seq<string>, c: Completion) {
    k.phase == Phase.Returned(c) && k.deltas == accepted && k.frames == h.frames + Tokens(calls)
  }

  /** Every honest provider call is a legal stretch of the prompt protocol: from
      the state in which a handler calls its provider, the accepted deltas are
      delivered and then one enabled step leaves it with the result. */
  lemma HonestCallIsLegal(w: World, gen: Gen, calls: seq<string>, onDelta: seq<string> -> bool, c: Completion)
    returns (v: World, last: Action)
    requires Honest(calls, onDelta, c)
    requires gen in w.handlers && w.handlers[gen].phase.Streaming? && w.handlers[gen].deltas == []
    ensures v == DeliverAll(w, gen, Accepted(calls, onDelta)) && Enabled(v, last) && IsInner(last)
    ensures (last.Return? || last.DeliveryFails?) && last.gen == gen
    ensures EndsAs(w.handlers[gen], Inner(v.handlers[gen], last), Accepted(calls, onDelta), calls, c)
  {
    var accepted := Accepted(calls, onDelta);
    v, last := DeliverAll(w, gen, accepted), LastStep(gen, calls, accepted, c);
    DeliveredAll(w, gen, accepted);
    assert v.handlers[gen].deltas == accepted;
    LastStepIsLegal(w.handlers[gen], v, gen, calls, onDelta, c);
  }

  // ---- DeepSeek ----

  datatype Choice = Choice(content: string, finish: Option<string>)

  datatype Line =
    | Skipped
    | EndOfStream
    | Malformed
    | Chunk(choices: seq<Choice>)

  /** What a line of the response means; `decode` is the JSON decoder of a chunk. */
  function Classify(line: string, decode: string -> Option<seq<Choice>>): Line {
    var l := Trim(line);
    if l == "" || !("data:" <= l) then Skipped
    else
      var data := Trim(l[5..]);
      if data == "[DONE]" then EndOfStream
      else if decode(data).None? then Malformed
      else Chunk(decode(data).value)
  }

  /** All choices of the chunks in `lines`. */
  function Choices(lines: seq<Line>): seq<Choice> {
    if lines == [] then []
    else
      var last := lines[|lines| - 1];
      Choices(lines[..|lines| - 1]) + (if last.Chunk? then last.choices else [])
  }

  /** None of `lines` ends the loop. */
  predicate NoneEnds(lines: seq<Line>) {
    lines == [] || (NoneEnds(lines[..|lines| - 1]) && (lines[|lines| - 1].Skipped? || lines[|lines| - 1].Chunk?))
  }

  /** The text pieces of `choices`; empty ones are not delivered. */
  function Pieces(choices: seq<Choice>): seq<string> {
    if choices == [] then []
    else
      var last := choices[|choices| - 1];
      Pieces(choices[..|choices| - 1]) + (if last.content == "" then [] else [last.content])
  }

  function Reason(c: Choice): string {
    if c.finish.Some? then c.finish.value else ""
  }

  /** The finish reason after `choices`: the last one given, "stop" if none is. */
  function FinishOf(choices: seq<Choice>): string {
    if choices == [] then STOP
    else
      var last := choices[|choices| - 1];
      if Reason(last) != "" then Reason(last) else FinishOf(choices[..|choices| - 1])
  }

  /** cancelled: only "stop" turns into "cancelled". */
  function OnCancel(finish: string): string {
    if finish == STOP then CANCELLED else finish
  }

  function Lines(text: seq<string>, decode: string -> Option<seq<Choice>>): (ls: seq<Line>)
    ensures |ls| == |text|
  {
    seq(|text|, i requires 0 <= i < |text| => Classify(text[i], decode))
  }

  /** The first `n` checks of the context found it open. */
  predicate OpenUntil(done: nat -> bool, n: nat) {
    n == 0 || (OpenUntil(done, n - 1) && !done(n - 1))
  }

  lemma {:induction false} OpenAt(done: nat -> bool, n: nat, i: nat)
    requires OpenUntil(done, n) && i < n
    ensures !done(i)
  {
    if i < n - 1 {
      OpenAt(done, n - 1, i);
    }
  }

  /** How a stream of `lines` can be left after `read` of them, the context having
      been checked before each line and, if reading failed, once after the last.
      `error` is what the scanner reports after the loop. */
  ghost predicate LeftStream(lines: seq<Line>, read: nat, error: bool, done: nat -> bool,
                             calls: seq<string>, onDelta: seq<string> -> bool, c: Completion)
    requires read <= |lines|
  {
    var got := Choices(lines[..read]);
    && NoneEnds(lines[..read]) && OpenUntil(done, read)
    && if Accepted(calls, onDelta) != calls then
      && read < |lines| && lines[read].Chunk? && !done(read)
      && Pieces(got) < calls <= Pieces(got + lines[read].choices)
    else
      && calls == Pieces(got)
      && if read < |lines| && done(read) then
           c == Completed(Concat(calls), OnCancel(FinishOf(got)))
         else if read < |lines| && !lines[read].EndOfStream? then
           lines[read].Malformed? && c.Failed?
         else if !error then
           c == Completed(Concat(calls), FinishOf(got))
         else if done(|lines|) then
           c == Completed(Concat(calls), OnCancel(FinishOf(got)))
         else
           c.Failed?
  }

  /** What becomes of the request: no response, because it could not be made or was
      given up, as it is when its context ends while it waits; a response with
      another status than 200; or a stream, with what the scanner reports after the
      loop. */
  datatype Upstream<L> =
    | NoResponse(problem: string)
    | BadStatus(status: int, body: string)
    | Answered(lines: seq<L>, error: bool)

  function ClassifyAll(up: Upstream<string>, decode: string -> Option<seq<Choice>>): Upstream<Line> {
    match up
    case NoResponse(problem) => NoResponse(problem)
    case BadStatus(status, body) => BadStatus(status, body)
    case Answered(lines, error) => Answered(Lines(lines, decode), error)
  }

  /** How a call can end: an error before anything is delivered if there is no stream,
      otherwise one of the ways to leave the stream. */
  ghost predicate Left(up: Upstream<Line>, read: nat, done: nat -> bool,
                       calls: seq<string>, onDelta: seq<string> -> bool, c: Completion) {
    if up.Answered? then read <= |up.lines| && LeftStream(up.lines, read, up.error, done, calls, onDelta, c)
    else read == 0 && calls == [] && c.Failed?
  }

  lemma Push(seen: seq<Choice>, x: Choice)
    ensures Pieces(seen + [x]) == if x.content == "" then Pieces(seen) else Pieces(seen) + [x.content]
    ensures FinishOf(seen + [x]) == if Reason(x) != "" then Reason(x) else FinishOf(seen)
  {
    assert (seen + [x])[..|seen|] == seen;
  }

  lemma LinesPush(lines: seq<Line>, read: nat)
    requires read < |lines|
    ensures Choices(lines[..read + 1])
         == if lines[read].Chunk? then Choices(lines[..read]) + lines[read].choices else Choices(lines[..read])
    ensures NoneEnds(lines[..read + 1]) <==> NoneEnds(lines[..read]) && (lines[read].Skipped? || lines[read].Chunk?)
  {
    assert lines[..read + 1][..read] == lines[..read];
  }

  lemma CallPush(calls: seq<string>, d: string, onDelta: seq<string> -> bool)
    requires AllAccepted(calls, onDelta)
    ensures Concat(calls + [d]) == Concat(calls) + d
    ensures AllAccepted(Accepted(calls + [d], onDelta), onDelta)
    ensures onDelta(calls + [d]) ==> AllAccepted(calls + [d], onDelta)
  {
    assert (calls + [d])[..|calls|] == calls;
  }

  /** The state of the loop after `read` lines. */
  ghost predicate Looping(lines: seq<Line>, read: nat, done: nat -> bool, calls: seq<string>,
                          onDelta: seq<string> -> bool, full: string, finish: string)
  {
    && read <= |lines| && NoneEnds(lines[..read]) && OpenUntil(done, read)
    && calls == Pieces(Choices(lines[..read])) && finish == FinishOf(Choices(lines[..read]))
    && full == Concat(calls) && AllAccepted(calls, onDelta)
  }

  lemma LoopStarts(lines: seq<Line>, done: nat -> bool, onDelta: seq<string> -> bool)
    ensures Looping(lines, 0, done, [], onDelta, "", STOP)
  {
    assert lines[..0] == [];
  }

  lemma LoopSkips(lines: seq<Line>, read: nat, done: nat -> bool, calls: seq<string>,
                  onDelta: seq<string> -> bool, full: string, finish: string)
    requires Looping(lines, read, done, calls, onDelta, full, finish)
    requires read < |lines| && lines[read].Skipped? && !done(read)
    ensures Looping(lines, read + 1, done, calls, onDelta, full, finish)
  {
    LinesPush(lines, read);
  }

  lemma LoopDelivers(lines: seq<Line>, read: nat, done: nat -> bool, calls: seq<string>,
                     onDelta: seq<string> -> bool, full: string, finish: string, got: seq<Choice>)
    requires read < |lines| && lines[read].Chunk? && !done(read) && NoneEnds(lines[..read]) && OpenUntil(done, read)
    requires got == Choices(lines[..read]) + lines[read].choices
    requires calls == Pieces(got) && finish == FinishOf(got) && full == Concat(calls) && AllAccepted(calls, onDelta)
    ensures Looping(lines, read + 1, done, calls, onDelta, full, finish)
  {
    LinesPush(lines, read);
  }

  /** StreamCompletion of the DeepSeek client, from the outcome of its request on.
      `read` counts the lines processed in full. */
  method StreamDeepSeek(up: Upstream<string>, decode: string -> Option<seq<Choice>>,
                        done: nat -> bool, onDelta: seq<string> -> bool)
    returns (calls: seq<string>, read: nat, c: Completion)
    ensures Honest(calls, onDelta, c)
    ensures Left(ClassifyAll(up, decode), read, done, calls, onDelta, c)
  {
    match up {
      case NoResponse(problem) => return [], 0, Failed(problem);
      case BadStatus(_, body) => return [], 0, Failed("deepseek: HTTP: " + Trim(body));
      case Answered(lines, error) => calls, read, c := ReadStream(lines, decode, error, done, onDelta);
    }
  }

  /** The loop over the lines of the response. */
  method ReadStream(text: seq<string>, decode: string -> Option<seq<Choice>>, error: bool,
                    done: nat -> bool, onDelta: seq<string> -> bool)
    returns (calls: seq<string>, read: nat, c: Completion)
    ensures Honest(calls, onDelta, c)
    ensures read <= |text|
    ensures LeftStream(Lines(text, decode), read, error, done, calls, onDelta, c)
  {
    ghost var lines := Lines(text, decode);
    var full, finish := "", STOP;
    calls, read := [], 0;
    LoopStarts(lines, done, onDelta);
    while read < |text|
      invariant read <= |text| && Looping(lines, read, done, calls, onDelta, full, finish)
    {
      if done(read) {
        return calls, read, Completed(full, OnCancel(finish));
      }
      var line := Parse(text[read], decode);
      if line.Skipped? {
        LoopSkips(lines, read, done, calls, onDelta, full, finish);
        read := read + 1;
        continue;
      }
      if line.EndOfStream? {
        break;
      }
      if line.Malformed? {
        return calls, read, Failed("deepseek: decode chunk");
      }
      ghost var got := Choices(lines[..read]);
      var refused := false;
      calls, full, finish, refused := DeliverChunk(got, line.choices, onDelta, calls, full, finish);
      if refused {
        return calls, read, Failed("callback");
      }
      LoopDelivers(lines, read, done, calls, onDelta, full, finish, got + line.choices);
      read := read + 1;
    }
    if error {
      if done(|text|) {
        return calls, read, Completed(full, OnCancel(finish));
      }
      return calls, read, Failed("deepseek: read stream");
    }
    return calls, read, Completed(full, finish);
  }

  /** The part of the loop that looks at one line. */
  method Parse(text: string, decode: string -> Option<seq<Choice>>) returns (line: Line)
    ensures line == Classify(text, decode)
  {
    var l := Trim(text);
    if l == "" || !("data:" <= l) {
      return Skipped;
    }
    var data := Trim(l[5..]);
    if data == "[DONE]" {
      return EndOfStream;
    }
    var chunk := decode(data);
    if chunk.None? {
      return Malformed;
    }
    return Chunk(chunk.value);
  }

  /** The loop over the choices of one chunk, after the choices `got`. */
  method DeliverChunk(ghost got: seq<Choice>, choices: seq<Choice>, onDelta: seq<string> -> bool,
                      calls0: seq<string>, full0: string, finish0: string)
    returns (calls: seq<string>, full: string, finish: string, refused: bool)
    requires calls0 == Pieces(got) && finish0 == FinishOf(got) && full0 == Concat(calls0)
    requires AllAccepted(calls0, onDelta)
    ensures AllAccepted(Accepted(calls, onDelta), onDelta)
    ensures refused <==> Accepted(calls, onDelta) != calls
    ensures refused ==> calls0 < calls <= Pieces(got + choices)
    ensures !refused ==>
      calls == Pieces(got + choices) && finish == FinishOf(got + choices) && full == Concat(calls)
  {
    calls, full, finish := calls0, full0, finish0;
    Whole(got, choices);
    for j := 0 to |choices|
      invariant calls == Pieces(got + choices[..j]) && finish == FinishOf(got + choices[..j])
      invariant full == Concat(calls) && calls0 <= calls
      invariant AllAccepted(calls, onDelta)
    {
      var x := choices[j];
      NextChoice(got, choices, j);
      if x.finish.Some? && x.finish.value != "" {
        finish := x.finish.value;
      }
      if x.content == "" {
        continue;
      }
      CallPush(calls, x.content, onDelta);
      calls := calls + [x.content];
      if !onDelta(calls) {
        return calls, full, finish, true;
      }
      full := full + x.content;
    }
    return calls, full, finish, false;
  }

  lemma Whole(got: seq<Choice>, choices: seq<Choice>)
    ensures got + choices[..0] == got && got + choices[..|choices|] == got + choices
  { }

  /** One more choice of a chunk. */
  lemma NextChoice(got: seq<Choice>, choices: seq<Choice>, j: nat)
    requires j < |choices|
    ensures var x, seen, next := choices[j], got + choices[..j], got + choices[..j + 1];
      && Pieces(next) == (if x.content == "" then Pieces(seen) else Pieces(seen) + [x.content])
      && FinishOf(next) == (if Reason(x) != "" then Reason(x) else FinishOf(seen))
      && Pieces(next) <= Pieces(got + choices)
  {
    NextSlice(got, choices, j);
    Push(got + choices[..j], choices[j]);
    PiecesAppend(got + choices[..j + 1], choices[j + 1..]);
  }

  lemma NextSlice<T>(got: seq<T>, choices: seq<T>, j: nat)
    requires j < |choices|
    ensures got + choices[..j + 1] == got + choices[..j] + [choices[j]]
    ensures got + choices[..j + 1] + choices[j + 1..] == got + choices
  { }

  lemma {:induction false} PiecesAppend(a: seq<Choice>, b: seq<Choice>)
    ensures Pieces(a + b) == Pieces(a) + Pieces(b)
  {
    if b == [] {
      assert a + b == a;
    } else {
      var front, last := b[..|b| - 1], b[|b| - 1];
      PiecesAppend(a, front);
      assert (a + b)[..|a + b| - 1] == a + front;
      AppendIsAssociative(Pieces(a), Pieces(front), if last.content == "" then [] else [last.content]);
    }
  }

  /** No empty delta is ever delivered. */
  lemma {:induction false} NoEmptyPiece(choices: seq<Choice>, i: nat)
    requires i < |Pieces(choices)|
    ensures Pieces(choices)[i] != ""
  {
    var front := choices[..|choices| - 1];
    if i < |Pieces(front)| {
      NoEmptyPiece(front, i);
    }
  }

  /** The finish reason is the last non-empty one given, "stop" if there is none. */
  lemma {:induction false} FinishIsLastGiven(choices: seq<Choice>, i: int)
    requires -1 <= i < |choices| && forall j | i < j < |choices| :: Reason(choices[j]) == ""
    requires i >= 0 ==> Reason(choices[i]) != ""
    ensures FinishOf(choices) == if i >= 0 then Reason(choices[i]) else STOP
  {
    if i < |choices| - 1 {
      FinishIsLastGiven(choices[..|choices| - 1], i);
    }
  }

  /** The lines before the first one that ends the stream or cannot be decoded. */
  function Body(lines: seq<Line>): seq<Line> {
    if lines == [] || !(lines[0].Skipped? || lines[0].Chunk?) then [] else [lines[0]] + Body(lines[1..])
  }

  lemma {:induction false} NoneEndsFirst(lines: seq<Line>)
    requires NoneEnds(lines) && lines != []
    ensures (lines[0].Skipped? || lines[0].Chunk?) && NoneEnds(lines[1..])
  {
    if |lines| > 1 {
      NoneEndsFirst(lines[..|lines| - 1]);
      assert lines[..|lines| - 1][1..] == lines[1..][..|lines| - 2];
    }
  }

  lemma {:induction false} ReadIsPrefix(lines: seq<Line>, read: nat)
    requires read <= |lines| && NoneEnds(lines[..read])
    ensures lines[..read] <= Body(lines)
    ensures read == |lines| || !(lines[read].Skipped? || lines[read].Chunk?) ==> lines[..read] == Body(lines)
  {
    if read > 0 {
      NoneEndsFirst(lines[..read]);
      assert lines[..read][1..] == lines[1..][..read - 1];
      assert lines[..read] == [lines[0]] + lines[1..][..read - 1];
      ReadIsPrefix(lines[1..], read - 1);
    }
  }

  lemma {:induction false} ChoicesAppend(a: seq<Line>, b: seq<Line>)
    ensures Choices(a + b) == Choices(a) + Choices(b)
  {
    if b == [] {
      assert a + b == a;
    } else {
      var front, last := b[..|b| - 1], b[|b| - 1];
      ChoicesAppend(a, front);
      assert (a + b)[..|a + b| - 1] == a + front;
      AppendIsAssociative(Choices(a), Choices(front), if last.Chunk? then last.choices else []);
    }
  }

  /** The whole answer in a response. */
  function Answer(lines: seq<Line>): seq<string> { Pieces(Choices(Body(lines))) }

  lemma AnswerPrefix(lines: seq<Line>, part: seq<Line>)
    requires part <= Body(lines)
    ensures Pieces(Choices(part)) <= Answer(lines)
    ensures Concat(Pieces(Choices(part))) <= Concat(Answer(lines))
  {
    var rest := Body(lines)[|part|..];
    assert part + rest == Body(lines);
    ChoicesAppend(part, rest);
    PiecesAppend(Choices(part), Choices(rest));
    ConcatAppends(Pieces(Choices(part)), Pieces(Choices(rest)));
  }

  /** A call that returns without error has returned a prefix of the answer, cut
      between two lines; if the context was never done, it is the whole answer
      with the finish reason the API gave. */
  lemma AnswerIsWholeUnlessCancelled(up: Upstream<Line>, read: nat, done: nat -> bool,
                                     calls: seq<string>, onDelta: seq<string> -> bool, c: Completion)
    requires Left(up, read, done, calls, onDelta, c) && Honest(calls, onDelta, c) && c.Completed?
    ensures up.Answered?
    ensures calls <= Answer(up.lines) && c.text <= Concat(Answer(up.lines))
    ensures (forall i :: !done(i)) ==>
      calls == Answer(up.lines) && c == Completed(Concat(Answer(up.lines)), FinishOf(Choices(Body(up.lines))))
  {
    var lines := up.lines;
    ReadIsPrefix(lines, read);
    AnswerPrefix(lines, lines[..read]);
  }

  // ---- What lines mean ----

  /** A data line as the API writes it carries its payload: the end marker, a chunk,
      or something the decoder does not know. */
  lemma WrittenLine(payload: string, decode: string -> Option<seq<Choice>>)
    requires Trimmed(payload) && payload != ""
    ensures Classify("data: " + payload, decode) ==
      if payload == "[DONE]" then EndOfStream
      else match decode(payload) case Some(choices) => Chunk(choices) case None => Malformed
  {
    var line := "data: " + payload;
    assert line[|line| - 1] == payload[|payload| - 1];
    TrimOfTrimmed(line);
    assert line[..5] == "data:" && line[5..] == " " + payload;
    TrimOfTrimmed(payload);
  }

  /** White space around a line of the response makes no difference. */
  lemma SpacedLine(line: string, c: char, decode: string -> Option<seq<Choice>>)
    requires IsSpace(c)
    ensures Classify([c] + line, decode) == Classify(line, decode)
    ensures Classify(line + [c], decode) == Classify(line, decode)
  {
    TrimOfSpaced(line, c);
  }

  /** Blank lines, comments and other fields, wherever they come, change neither the
      answer nor its finish reason. */
  lemma {:induction false} SkippedIsInvisible(before: seq<Line>, after: seq<Line>)
    ensures Choices(Body(before + [Skipped] + after)) == Choices(Body(before + after))
  {
    var all, rest := before + [Skipped] + after, before + after;
    if before == [] {
      assert all[1..] == after && rest == after && all[0] == Skipped;
      ChoicesAppend([Skipped], Body(after));
      assert Choices([Skipped]) == [] && [] + Choices(Body(after)) == Choices(Body(after));
    } else {
      assert all[0] == before[0] == rest[0];
      assert all[1..] == before[1..] + [Skipped] + after && rest[1..] == before[1..] + after;
      SkippedIsInvisible(before[1..], after);
      ChoicesAppend([before[0]], Body(all[1..]));
      ChoicesAppend([before[0]], Body(rest[1..]));
    }
  }

  // ---- What a cancelled call reports ----

  /** The last finish reason given in `choices`, "" if none is. */
  function LastReason(choices: seq<Choice>): string {
    if choices == [] then ""
    else
      var last := choices[|choices| - 1];
      if Reason(last) != "" then Reason(last) else LastReason(choices[..|choices| - 1])
  }

  lemma {:induction false} FinishOfLast(choices: seq<Choice>)
    ensures FinishOf(choices) == if LastReason(choices) == "" then STOP else LastReason(choices)
  {
    if choices != [] {
      FinishOfLast(choices[..|choices| - 1]);
    }
  }

  /** The call has seen its context done: before a line, or after a failed read. */
  predicate SawDone(lines: seq<Line>, read: nat, error: bool, done: nat -> bool)
    requires read <= |lines|
  {
    || (read < |lines| && done(read))
    || (error && (read < |lines| ==> lines[read].EndOfStream?) && done(|lines|))
  }

  /** The call has come to the end of the stream without seeing its context done
      or a read error. */
  predicate CameToEnd(lines: seq<Line>, read: nat, error: bool, done: nat -> bool)
    requires read <= |lines|
  {
    && !error
    && (read < |lines| ==> lines[read].EndOfStream? && !done(read))
  }

  /** The loop gets as far as line `k`, given its inputs only. */
  predicate Reaches(lines: seq<Line>, k: nat, done: nat -> bool, onDelta: seq<string> -> bool)
    requires k <= |lines|
  {
    NoneEnds(lines[..k]) && OpenUntil(done, k) && AllAccepted(Pieces(Choices(lines[..k])), onDelta)
  }

  /** The loop gets to line `k` and not past it. */
  predicate StopsAt(lines: seq<Line>, k: nat, done: nat -> bool, onDelta: seq<string> -> bool)
    requires k <= |lines|
  {
    && Reaches(lines, k, done, onDelta)
    && (k < |lines| ==> !Reaches(lines, k + 1, done, onDelta))
  }

  lemma {:induction false} AcceptedPrefix(calls: seq<string>, onDelta: seq<string> -> bool, m: nat)
    requires AllAccepted(calls, onDelta) && m <= |calls|
    ensures AllAccepted(calls[..m], onDelta)
  {
    if m < |calls| {
      AcceptedPrefix(calls[..|calls| - 1], onDelta, m);
      assert calls[..|calls| - 1][..m] == calls[..m];
    } else {
      assert calls[..m] == calls;
    }
  }

  lemma ReachesEarlier(lines: seq<Line>, k: nat, done: nat -> bool, onDelta: seq<string> -> bool)
    requires k < |lines| && Reaches(lines, k + 1, done, onDelta)
    ensures Reaches(lines, k, done, onDelta)
  {
    LinesPush(lines, k);
    var got := Choices(lines[..k]);
    if lines[k].Chunk? {
      PiecesAppend(got, lines[k].choices);
    }
    var all := Pieces(Choices(lines[..k + 1]));
    assert all[..|Pieces(got)|] == Pieces(got);
    AcceptedPrefix(all, onDelta, |Pieces(got)|);
  }

  lemma {:induction false} ReachesAllBefore(lines: seq<Line>, j: nat, k: nat, done: nat -> bool,
                                            onDelta: seq<string> -> bool)
    requires j <= k <= |lines| && Reaches(lines, k, done, onDelta)
    ensures Reaches(lines, j, done, onDelta)
  {
    if j < k {
      ReachesEarlier(lines, k - 1, done, onDelta);
      ReachesAllBefore(lines, j, k - 1, done, onDelta);
    }
  }

  /** The inputs determine where the loop stops. */
  lemma StopsOnce(lines: seq<Line>, j: nat, k: nat, done: nat -> bool, onDelta: seq<string> -> bool)
    requires j <= |lines| && k <= |lines| && StopsAt(lines, j, done, onDelta) && StopsAt(lines, k, done, onDelta)
    ensures j == k
  {
    if j < k {
      ReachesAllBefore(lines, j + 1, k, done, onDelta);
    } else if k < j {
      ReachesAllBefore(lines, k + 1, j, done, onDelta);
    }
  }

  /** A refused chunk is not passed. */
  lemma RefusedIsNotPassed(lines: seq<Line>, read: nat, calls: seq<string>, done: nat -> bool,
                           onDelta: seq<string> -> bool)
    requires read < |lines| && lines[read].Chunk? && Accepted(calls, onDelta) != calls
    requires calls <= Pieces(Choices(lines[..read]) + lines[read].choices)
    ensures !Reaches(lines, read + 1, done, onDelta)
  {
    LinesPush(lines, read);
    var all := Pieces(Choices(lines[..read + 1]));
    assert all[..|calls|] == calls;
    if AllAccepted(all, onDelta) {
      AcceptedPrefix(all, onDelta, |calls|);
    }
  }

  lemma ReachesRead(lines: seq<Line>, read: nat, error: bool, done: nat -> bool,
                    calls: seq<string>, onDelta: seq<string> -> bool, c: Completion)
    requires read <= |lines| && LeftStream(lines, read, error, done, calls, onDelta, c) && Honest(calls, onDelta, c)
    ensures Reaches(lines, read, done, onDelta)
  {
    var taken, got := Accepted(calls, onDelta), Pieces(Choices(lines[..read]));
    assert got <= taken;
    assert taken[..|got|] == got;
    AcceptedPrefix(taken, onDelta, |got|);
  }

  /** Every outcome of the stream stops where its inputs say. */
  lemma LeavesWhereItStops(lines: seq<Line>, read: nat, error: bool, done: nat -> bool,
                           calls: seq<string>, onDelta: seq<string> -> bool, c: Completion)
    requires read <= |lines| && LeftStream(lines, read, error, done, calls, onDelta, c) && Honest(calls, onDelta, c)
    ensures StopsAt(lines, read, done, onDelta)
  {
    ReachesRead(lines, read, error, done, calls, onDelta, c);
    if read < |lines| {
      LinesPush(lines, read);
      if Accepted(calls, onDelta) != calls {
        RefusedIsNotPassed(lines, read, calls, done, onDelta);
      }
    }
  }

  /** Stopping at line `k`, the call reports "cancelled": it saw its context done with
      no other last reason than "stop" or "cancelled", or came to the end of a stream
      whose last reason is "cancelled" itself. */
  predicate EndsCancelled(lines: seq<Line>, k: nat, error: bool, done: nat -> bool)
    requires k <= |lines|
  {
    var last := LastReason(Choices(lines[..k]));
    || (SawDone(lines, k, error, done) && last in ["", STOP, CANCELLED])
    || (CameToEnd(lines, k, error, done) && last == CANCELLED)
  }

  /** Stopping at line `k`, it does not: it stopped in a chunk, at a refused delta; a
      line could not be decoded; reading failed with the context still open; or the
      last reason was another one. */
  predicate EndsOtherwise(lines: seq<Line>, k: nat, error: bool, done: nat -> bool)
    requires k <= |lines|
  {
    var last := LastReason(Choices(lines[..k]));
    || (k < |lines| && !done(k) && (lines[k].Chunk? || lines[k].Malformed?))
    || (error && (k < |lines| ==> lines[k].EndOfStream? && !done(k)) && !done(|lines|))
    || (SawDone(lines, k, error, done) && last !in ["", STOP, CANCELLED])
    || (CameToEnd(lines, k, error, done) && last != CANCELLED)
  }

  lemma ReportOfStream(lines: seq<Line>, read: nat, error: bool, done: nat -> bool,
                       calls: seq<string>, onDelta: seq<string> -> bool, c: Completion)
    requires read <= |lines| && LeftStream(lines, read, error, done, calls, onDelta, c) && Honest(calls, onDelta, c)
    ensures c.Completed? && c.finishReason == CANCELLED <==> EndsCancelled(lines, read, error, done)
  {
    FinishOfLast(Choices(lines[..read]));
  }

  lemma EndsOneWay(lines: seq<Line>, k: nat, error: bool, done: nat -> bool, onDelta: seq<string> -> bool)
    requires k <= |lines| && StopsAt(lines, k, done, onDelta)
    ensures EndsCancelled(lines, k, error, done) <==> !EndsOtherwise(lines, k, error, done)
  {
    if k < |lines| && lines[k].Skipped? {
      LinesPush(lines, k);
    }
  }

  /** The interface promises a nil error and the finish reason "cancelled" for a
      cancelled call. From the inputs of a call, what every outcome of it reports:
      "cancelled" exactly if there is a stream and the loop stops at a line where it
      ends so. */
  lemma ReportsCancelledIff(up: Upstream<Line>, read: nat, done: nat -> bool,
                            calls: seq<string>, onDelta: seq<string> -> bool, c: Completion)
    requires Left(up, read, done, calls, onDelta, c) && Honest(calls, onDelta, c)
    ensures c.Completed? && c.finishReason == CANCELLED <==>
      && up.Answered?
      && exists k :: 0 <= k <= |up.lines| && StopsAt(up.lines, k, done, onDelta)
                   && EndsCancelled(up.lines, k, up.error, done)
  {
    if up.Answered? {
      LeavesWhereItStops(up.lines, read, up.error, done, calls, onDelta, c);
      ReportOfStream(up.lines, read, up.error, done, calls, onDelta, c);
      forall k | 0 <= k <= |up.lines| && StopsAt(up.lines, k, done, onDelta) ensures k == read {
        StopsOnce(up.lines, k, read, done, onDelta);
      }
    }
  }

  /** The ways to break the promise, from the inputs of a cancelled call: there is no
      stream, which includes every call cancelled while it waits for the response;
      or the loop stops at a line where it ends otherwise. */
  lemma PromiseBrokenIff(up: Upstream<Line>, read: nat, done: nat -> bool,
                         calls: seq<string>, onDelta: seq<string> -> bool, c: Completion)
    requires Left(up, read, done, calls, onDelta, c) && Honest(calls, onDelta, c)
    ensures !(c.Completed? && c.finishReason == CANCELLED) <==>
      || !up.Answered?
      || exists k :: 0 <= k <= |up.lines| && StopsAt(up.lines, k, done, onDelta)
                   && EndsOtherwise(up.lines, k, up.error, done)
  {
    if up.Answered? {
      LeavesWhereItStops(up.lines, read, up.error, done, calls, onDelta, c);
      ReportOfStream(up.lines, read, up.error, done, calls, onDelta, c);
      EndsOneWay(up.lines, read, up.error, done, onDelta);
      forall k | 0 <= k <= |up.lines| && StopsAt(up.lines, k, done, onDelta) ensures k == read {
        StopsOnce(up.lines, k, read, done, onDelta);
      }
    }
  }

  /** A call cancelled while it waits for the response: every outcome is an error. */
  lemma CancelWhileWaiting(problem: string, done: nat -> bool, read: nat, calls: seq<string>,
                           onDelta: seq<string> -> bool, c: Completion)
    requires Left(NoResponse(problem), read, done, calls, onDelta, c)
    ensures c.Failed? && calls == []
  { }

  /** A call cancelled before its second line, after the API has announced that
      the answer ends for length: every outcome reports "length". */
  lemma CancelCanReportLength(first: Line, second: Line, error: bool, read: nat, calls: seq<string>,
                              onDelta: seq<string> -> bool, c: Completion)
    requires first == Chunk([Choice("", Some("length"))])
    requires Left(Answered([first, second], error), read, k => k >= 1, calls, onDelta, c) && Honest(calls, onDelta, c)
    ensures c == Completed("", "length")
  {
    var lines := [first, second];
    LengthAnnounced(first);
    LinesPush(lines, 0);
    assert lines[..0] == [] && [] + first.choices == first.choices;
    DoneAfterOne(lines, error, read, k => k >= 1, calls, onDelta, c);
  }

  /** A stream whose first line gives no text, left with the context done before the second. */
  lemma DoneAfterOne(lines: seq<Line>, error: bool, read: nat, done: nat -> bool,
                     calls: seq<string>, onDelta: seq<string> -> bool, c: Completion)
    requires |lines| == 2 && lines[0].Chunk? && Pieces(lines[0].choices) == [] && !done(0) && done(1)
    requires Choices(lines[..0]) == [] && Choices(lines[..1]) == lines[0].choices
    requires read <= 2 && LeftStream(lines, read, error, done, calls, onDelta, c)
    ensures c == Completed("", OnCancel(FinishOf(lines[0].choices)))
  {
    assert [] + lines[0].choices == lines[0].choices;
    assert read == 1;
  }

  lemma LengthAnnounced(first: Line)
    requires first == Chunk([Choice("", Some("length"))])
    ensures Pieces(first.choices) == [] && FinishOf(first.choices) == "length"
  {
    Push([], first.choices[0]);
    assert [] + [first.choices[0]] == first.choices;
  }

  /** A call cancelled as soon as it has its response, which is empty: it never looks,
      and every outcome reports "stop". */
  lemma CancelCanReportStop(read: nat, calls: seq<string>, onDelta: seq<string> -> bool, c: Completion)
    requires Left(Answered([], false), read, k => true, calls, onDelta, c) && Honest(calls, onDelta, c)
    ensures c == Completed("", STOP)
  { }

  /** A call cancelled after it has taken its first line, which is malformed: every
      outcome is an error. */
  lemma CancelCanFail(error: bool, read: nat, calls: seq<string>, onDelta: seq<string> -> bool, c: Completion)
    requires Left(Answered([Malformed], error), read, k => k >= 1, calls, onDelta, c)
    ensures c.Failed?
  {
    assert [Malformed][..1] == [Malformed];
  }

  // ---- Mock ----

  /** `s` as one string per character. */
  function Characters(s: string): seq<string> {
    seq(|s|, i requires 0 <= i < |s| => [s[i]])
  }

  datatype CompletionRequest = CompletionRequest(settings: GenerationSettings, messages: seq<Message>)

  class MockProvider {
    var delay: int
    var lastRequest: Option<CompletionRequest>

    constructor (delay: int)
      ensures this.delay == delay && lastRequest == None
    {
      this.delay, lastRequest := delay, None;
    }

    /** Echoes the last message. */
    method StreamCompletion(req: CompletionRequest, done: nat -> bool, onDelta: seq<string> -> bool)
      returns (calls: seq<string>, c: Completion)
      modifies this`lastRequest
      ensures lastRequest == Some(req)
      ensures Honest(calls, onDelta, c)
      ensures var n := |req.messages|;
        var last := if n == 0 then "" else req.messages[n - 1].content;
        Echoed("mock reply to: " + last + "\n", delay, done, calls, onDelta, c)
    {
      lastRequest := Some(req);
      var last := "";
      if |req.messages| > 0 {
        last := req.messages[|req.messages| - 1].content;
      }
      calls, c := Echo("mock reply to: " + last + "\n", delay, done, onDelta);
    }
  }

  /** How the mock's loop can end: the reply is delivered character by character,
      until the callback fails or, if there is a delay, the context is done. */
  ghost predicate Echoed(reply: string, delay: int, done: nat -> bool,
                         calls: seq<string>, onDelta: seq<string> -> bool, c: Completion) {
    && calls <= Characters(reply) && (delay > 0 ==> OpenUntil(done, |calls|))
    && if Accepted(calls, onDelta) != calls then c.Failed?
       else if |calls| < |reply| then delay > 0 && done(|calls|) && c == Completed(reply[..|calls|], CANCELLED)
       else c == Completed(reply, STOP)
  }

  /** The loop over the characters of the reply; `done` says, for each in turn,
      whether the wait before it ends with the context done. */
  method Echo(reply: string, delay: int, done: nat -> bool, onDelta: seq<string> -> bool)
    returns (calls: seq<string>, c: Completion)
    ensures Honest(calls, onDelta, c)
    ensures Echoed(reply, delay, done, calls, onDelta, c)
  {
    var full := "";
    calls := [];
    for i := 0 to |reply|
      invariant full == Concat(calls) == reply[..i] && calls == Characters(reply)[..i]
      invariant AllAccepted(calls, onDelta)
      invariant delay > 0 ==> OpenUntil(done, i)
    {
      if delay > 0 && done(i) {
        return calls, Completed(full, CANCELLED);
      }
      CharactersPush(reply, i);
      CallPush(calls, [reply[i]], onDelta);
      calls := calls + [[reply[i]]];
      if !onDelta(calls) {
        return calls, Failed("callback");
      }
      full := full + [reply[i]];
    }
    assert reply[..|reply|] == reply;
    c := Completed(full, STOP);
  }

  lemma CharactersPush(s: string, i: nat)
    requires i < |s|
    ensures s[..i + 1] == s[..i] + [s[i]]
    ensures Characters(s)[..i + 1] == Characters(s)[..i] + [[s[i]]]
    ensures Characters(s)[..i + 1] <= Characters(s)
  { }

  lemma {:induction false} AcceptedUpTo(calls: seq<string>, onDelta: seq<string> -> bool, m: nat)
    requires AllAccepted(calls, onDelta) && m <= |calls|
    ensures m > 0 ==> onDelta(calls[..m])
  {
    if m < |calls| {
      AcceptedUpTo(calls[..|calls| - 1], onDelta, m);
      assert calls[..|calls| - 1][..m] == calls[..m];
    } else {
      assert calls[..m] == calls;
    }
  }

  /** The mock reports "cancelled" exactly if it waits between characters and its
      context is first found done before a character all of whose predecessors have
      been taken; without delay it never looks, so a cancelled call reports "stop". */
  lemma MockReportsCancelledIff(reply: string, delay: int, done: nat -> bool,
                                calls: seq<string>, onDelta: seq<string> -> bool, c: Completion)
    requires Echoed(reply, delay, done, calls, onDelta, c) && Honest(calls, onDelta, c)
    ensures c.Completed? && c.finishReason == CANCELLED <==>
      delay > 0 && exists k :: 0 <= k < |reply| && StopsBefore(reply, done, onDelta, k)
  {
    if c.Completed? && c.finishReason == CANCELLED {
      assert Characters(reply)[..|calls|] == calls;
      assert StopsBefore(reply, done, onDelta, |calls|);
    }
    if delay > 0 {
      forall k | 0 <= k < |reply| && StopsBefore(reply, done, onDelta, k)
        ensures c.Completed? && c.finishReason == CANCELLED
      {
        StopsThere(reply, delay, done, calls, onDelta, c, k);
      }
    }
  }

  predicate StopsBefore(reply: string, done: nat -> bool, onDelta: seq<string> -> bool, k: nat)
    requires k <= |reply|
  {
    done(k) && OpenUntil(done, k) && AllAccepted(Characters(reply)[..k], onDelta)
  }

  lemma StopsThere(reply: string, delay: int, done: nat -> bool, calls: seq<string>,
                   onDelta: seq<string> -> bool, c: Completion, k: nat)
    requires Echoed(reply, delay, done, calls, onDelta, c) && delay > 0
    requires k < |reply| && StopsBefore(reply, done, onDelta, k)
    ensures c.Completed? && c.finishReason == CANCELLED
  {
    if |calls| > k {
      OpenAt(done, |calls|, k);
    } else {
      AcceptedUpTo(Characters(reply)[..k], onDelta, |calls|);
      assert Characters(reply)[..k][..|calls|] == calls;
    }
  }
}
