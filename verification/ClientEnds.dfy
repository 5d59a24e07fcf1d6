/** When a response that stops early goes unnoticed: GatewayClient.Prompt promises
    a finish reason, but a stream may end without one and without an error
    (internal/client/transport.go, internal/protocol/sse.go). */
module ClientEnds {
  import opened Protocol
  import opened Json
  import opened Sse
  import opened SseLaws
  import opened ClientPrompt

  /** Prompt returns neither an error nor a finish reason. */
  predicate Silent(body: string, readFailed: bool, onDelta: seq<string> -> bool) {
    !Fails(body, readFailed, onDelta) && FinishReason(Seen(body, onDelta)) == ""
  }

  // ---- Events ----

  predicate Harmless(r: Reaction) { r.Deliver? || r.Skip? }

  /** Events that the client takes to the last. */
  predicate AllTaken(events: seq<Event>) { forall i | 0 <= i < |events| :: Harmless(React(events[i])) }

  /** Events of which the first that is not just taken is a done event with an empty
      reason. */
  predicate EmptyDoneFirst(events: seq<Event>) {
    events != [] &&
    if Harmless(React(events[0])) then EmptyDoneFirst(events[1..]) else React(events[0]) == Finish("")
  }

  lemma TakenFirst(p: Payload, later: seq<Event>)
    ensures AllTaken([Wire(p)] + later) <==> p.Token? && AllTaken(later)
    ensures EmptyDoneFirst([Wire(p)] + later) <==> (p.Token? && EmptyDoneFirst(later)) || p == Done("")
  {
    var all := [Wire(p)] + later;
    ReactToWire(p);
    assert all[1..] == later;
    assert AllTaken(all) <==> Harmless(React(all[0])) && AllTaken(all[1..]) by { TakenStep(all); }
  }

  lemma TakenStep(events: seq<Event>)
    requires events != []
    ensures AllTaken(events) <==> Harmless(React(events[0])) && AllTaken(events[1..])
  {
    assert forall i | 0 < i < |events| :: events[i] == events[1..][i - 1];
  }

  lemma {:induction false} NoFinishYet(done: seq<Event>)
    requires AllTaken(done)
    ensures FinishReason(Reactions(done)) == "" && !SawDone(Reactions(done))
  {
    if done != [] {
      var front := done[..|done| - 1];
      NoFinishYet(front);
      assert Reactions(done)[..|done| - 1] == Reactions(front);
    }
  }

  lemma PushTaken(done: seq<Event>, e: Event)
    requires AllTaken(done) && Harmless(React(e))
    ensures AllTaken(done + [e])
  { }

  lemma ReactionsPush(events: seq<Event>, e: Event)
    ensures Reactions(events + [e]) == Reactions(events) + [React(e)]
  { }

  /** How a client that takes every delta fares with the events `pending`. */
  lemma {:induction false} DispatchEnds(done: seq<Event>, pending: seq<Event>, onDelta: seq<string> -> bool)
    requires AllTaken(done) && forall ds :: onDelta(ds)
    ensures var (seen, ok) := Dispatch(done, pending, Callback(onDelta));
      && (ok <==> AllTaken(pending))
      && (ok ==> FinishReason(Reactions(seen)) == "")
      && (EmptyDoneFirst(pending) <==> !ok && SawDone(Reactions(seen)) && FinishReason(Reactions(seen)) == "")
    decreases |pending|
  {
    if pending == [] {
      NoFinishYet(done);
    } else {
      var next := done + [pending[0]];
      ReactionsPush(done, pending[0]);
      TakenStep(pending);
      if Harmless(React(pending[0])) {
        PushTaken(done, pending[0]);
        DispatchEnds(next, pending[1..], onDelta);
      }
    }
  }

  lemma SilentIffTaken(body: string, readFailed: bool, onDelta: seq<string> -> bool)
    requires forall ds :: onDelta(ds)
    ensures Silent(body, readFailed, onDelta) <==>
      || EmptyDoneFirst(Events(body))
      || (AllTaken(Events(body)) && AllFit(SplitLines(body)) && !readFailed)
  {
    DispatchEnds([], Events(body), onDelta);
    NotBoth(Events(body));
  }

  lemma {:induction false} NotBoth(events: seq<Event>)
    ensures !(AllTaken(events) && EmptyDoneFirst(events))
  {
    if events != [] {
      TakenStep(events);
      NotBoth(events[1..]);
    }
  }

  // ---- The exact condition ----

  /** Only tokens lie before the cut after `n` characters of a response made of
      `frames`, which is before the colon of a data line or after a token's data line. */
  predicate CutAmongTokens(frames: seq<Payload>, n: nat) {
    frames == [] ||
    var e := Wire(frames[0]);
    || n <= ToColon(e)
    || (n >= ToLineEnd(e) && frames[0].Token? && (n < |Frame(e)| || CutAmongTokens(frames[1..], n - |Frame(e)|)))
  }

  /** The first `n` characters hold the data line of a done event with an empty reason
      after nothing but tokens, all of them in lines that fit. */
  predicate HasEmptyDone(frames: seq<Payload>, n: nat) {
    frames != [] &&
    var e := Wire(frames[0]);
    && FrameFits(e) && n >= ToLineEnd(e)
    && (frames[0] == Done("") ||
        (frames[0].Token? && n >= |Frame(e)| && HasEmptyDone(frames[1..], n - |Frame(e)|)))
  }

  /** The start of a response: part of its first frame, or that frame and the start
      of the rest. */
  lemma StartOfResponse(frames: seq<Payload>, body: string)
    requires frames != [] && body <= Stream(Wires(frames))
    ensures var frame := Frame(Wire(frames[0]));
      if |body| < |frame| then body < frame
      else body == frame + body[|frame|..] && body[|frame|..] <= Stream(Wires(frames[1..]))
  {
    assert Wires(frames)[1..] == Wires(frames[1..]);
    assert Wires(frames)[0] == Wire(frames[0]);
  }

  ghost predicate EndsAsCut(frames: seq<Payload>, body: string) {
    && (EmptyDoneFirst(Events(body)) <==> HasEmptyDone(frames, |body|))
    && (AllFit(SplitLines(body)) ==> (AllTaken(Events(body)) <==> CutAmongTokens(frames, |body|)))
  }

  lemma EndsInFirst(frames: seq<Payload>, body: string)
    requires frames != [] && body < Frame(Wire(frames[0]))
    ensures EndsAsCut(frames, body)
  {
    CutFrame(frames[0], body);
  }

  lemma EndsLater(frames: seq<Payload>, tail: string, body: string)
    requires frames != [] && body == Frame(Wire(frames[0])) + tail && EndsAsCut(frames[1..], tail)
    ensures EndsAsCut(frames, body)
  {
    AfterFrame(frames[0], tail);
  }

  lemma {:induction false} EndsWhereCut(frames: seq<Payload>, body: string)
    requires body <= Stream(Wires(frames))
    ensures EndsAsCut(frames, body)
  {
    if frames == [] {
      assert body == "";
    } else {
      var n := |Frame(Wire(frames[0]))|;
      StartOfResponse(frames, body);
      if |body| < n {
        EndsInFirst(frames, body);
      } else {
        EndsWhereCut(frames[1..], body[n..]);
        EndsLater(frames, body[n..], body);
      }
    }
  }

  /** A whole frame and what follows it. */
  lemma AfterFrame(p: Payload, tail: string)
    ensures var body := Frame(Wire(p)) + tail;
      && (EmptyDoneFirst(Events(body)) <==>
            FrameFits(Wire(p)) && ((p.Token? && EmptyDoneFirst(Events(tail))) || p == Done("")))
      && (AllFit(SplitLines(body)) ==>
            AllFit(SplitLines(tail)) && (AllTaken(Events(body)) <==> p.Token? && AllTaken(Events(tail))))
  {
    var e := Wire(p);
    WireIsClean(p);
    FrameLines(e, tail);
    ReadFrame(e, tail);
    LinesOfFrame(e, SplitLines(tail));
    TakenFirst(p, Events(tail));
  }

  lemma LinesOfFrame(e: Event, lines: seq<string>)
    ensures AllFit([EventLine(e)] + ([DataLine(e)] + ([""] + lines))) <==> FrameFits(e) && AllFit(lines)
  {
    var all := [EventLine(e)] + ([DataLine(e)] + ([""] + lines));
    assert all[0] == EventLine(e) && all[1] == DataLine(e) && all[2] == "" && all[3..] == lines;
    assert forall i | 3 <= i < |all| :: all[i] == lines[i - 3];
    assert forall i | 0 <= i < |lines| :: lines[i] == all[i + 3];
  }

  /** A frame cut short. */
  lemma CutFrame(p: Payload, body: string)
    requires body < Frame(Wire(p))
    ensures var e := Wire(p);
      && (EmptyDoneFirst(Events(body)) <==> FrameFits(e) && |body| >= ToLineEnd(e) && p == Done(""))
      && (AllFit(SplitLines(body)) ==>
            (AllTaken(Events(body)) <==> |body| <= ToColon(e) || (|body| >= ToLineEnd(e) && p.Token?)))
  {
    var e := Wire(p);
    WireHasData(p);
    var q := ReadCutFrame(e, body);
    CutFrameTaken(p, e, q, |body|, AllFit(SplitLines(body)), Events(body));
  }

  /** What the events `es` of the first `n` characters of a frame mean; `fit` says
      whether the lines of these characters fit. */
  lemma CutFrameTaken(p: Payload, e: Event, q: string, n: nat, fit: bool, es: seq<Event>)
    requires e == Wire(p) && (n <= ToColon(e) ==> es == [])
    requires ToColon(e) < n < ToLineEnd(e) ==>
      q < Marshal(p) && es == if fit then [Event(EventName(p), Trim(q))] else []
    requires ToLineEnd(e) <= n ==> (fit <==> FrameFits(e)) && es == if FrameFits(e) then [e] else []
    ensures EmptyDoneFirst(es) <==> FrameFits(e) && n >= ToLineEnd(e) && p == Done("")
    ensures fit ==> (AllTaken(es) <==> n <= ToColon(e) || (n >= ToLineEnd(e) && p.Token?))
  {
    OneTaken(p);
    if ToColon(e) < n < ToLineEnd(e) {
      CutIsNotTaken(p, q);
    }
  }

  lemma WireHasData(p: Payload)
    ensures Clean(Wire(p)) && Wire(p).data == Marshal(p) != "" && Wire(p).name == EventName(p)
  {
    WireIsClean(p);
    MarshalIsOneLine(p);
  }

  lemma OneTaken(p: Payload)
    ensures AllTaken([Wire(p)]) <==> p.Token?
    ensures EmptyDoneFirst([Wire(p)]) <==> p == Done("")
    ensures AllTaken([]) && !EmptyDoneFirst([])
  {
    TakenFirst(p, []);
    assert [Wire(p)] + [] == [Wire(p)];
  }

  lemma CutIsNotTaken(p: Payload, q: string)
    ensures var events := [Event(EventName(p), Trim(q))];
      q < Marshal(p) ==> !AllTaken(events) && !EmptyDoneFirst(events)
  {
    if q < Marshal(p) {
      var e := Event(EventName(p), Trim(q));
      TrimIsNoLonger(q);
      ReactToCut(p, e, q);
      assert [e][0] == e;
    }
  }

  lemma {:induction false} TrimLeftIsNoLonger(s: string)
    ensures |TrimLeft(s)| <= |s|
  {
    if s != "" && IsSpace(s[0]) {
      TrimLeftIsNoLonger(s[1..]);
    }
  }

  lemma TrimIsNoLonger(s: string)
    ensures |Trim(s)| <= |s|
  {
    TrimLeftIsNoLonger(s);
    TrimRightIsPrefix(TrimLeft(s));
  }

  /** For any response, wherever it is cut, read by a client that takes every delta:
      the end goes unnoticed exactly if the client has got a done event with an empty
      reason; or if the connection ends cleanly, no line is too long, and the cut is a
      quiet one among tokens. */
  lemma SilentIff(frames: seq<Payload>, body: string, readFailed: bool, onDelta: seq<string> -> bool)
    requires body <= Stream(Wires(frames)) && forall ds :: onDelta(ds)
    ensures Silent(body, readFailed, onDelta) <==>
      || HasEmptyDone(frames, |body|)
      || (CutAmongTokens(frames, |body|) && AllFit(SplitLines(body)) && !readFailed)
  {
    EndsWhereCut(frames, body);
    SilentIffTaken(body, readFailed, onDelta);
  }

  /** A response cut right after one of its tokens ends like one that is complete
      but for its finish reason. */
  lemma CutAfterToken(d: string, reason: string, onDelta: seq<string> -> bool)
    requires FrameFits(Wire(Token(d))) && forall ds :: onDelta(ds)
    ensures var cut := Frame(Wire(Token(d)));
      cut < Stream(Wires([Token(d), Done(reason)])) && Silent(cut, false, onDelta) && Deltas(Seen(cut, onDelta)) == [d]
  {
    var frames := [Token(d), Done(reason)];
    var cut, rest := Frame(Wire(Token(d))), Wires([Done(reason)]);
    assert Wires(frames)[0] == Wire(Token(d)) && Wires(frames)[1..] == rest && rest[0] == Wire(Done(reason));
    assert Stream(Wires(frames)) == cut + Stream(rest) && |Stream(rest)| > 0;
    assert frames[1..] == [Done(reason)];
    WireIsClean(Token(d));
    FrameLines(Wire(Token(d)), "");
    LinesOfFrame(Wire(Token(d)), []);
    assert cut + "" == cut;
    SilentIff(frames, cut, false, onDelta);
    SeenOneToken(d, cut, onDelta);
  }

  lemma SeenOneToken(d: string, cut: string, onDelta: seq<string> -> bool)
    requires FrameFits(Wire(Token(d))) && cut == Frame(Wire(Token(d))) && forall ds :: onDelta(ds)
    ensures Deltas(Seen(cut, onDelta)) == [d]
  {
    var e := Wire(Token(d));
    WireIsClean(Token(d));
    ReactToWire(Token(d));
    ReadFrame(e, "");
    assert cut + "" == cut && [e] + [] == [e];
    HandsOnOne(e, d, onDelta);
  }

  lemma HandsOnOne(e: Event, d: string, onDelta: seq<string> -> bool)
    requires React(e) == Deliver(d) && forall ds :: onDelta(ds)
    ensures Deltas(Reactions(Dispatch([], [e], Callback(onDelta)).0)) == [d]
  {
    assert [] + [e] == [e];
    assert Reactions([e]) == [Deliver(d)];
    assert [Deliver(d)][..0] == [];
    assert Dispatch([], [e], Callback(onDelta)).0 == [e];
  }
}
