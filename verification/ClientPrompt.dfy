/** The terminal's side of a prompt: GatewayClient.Prompt reads the response
    stream and hands deltas on until the terminal event
    (internal/client/transport.go). */
module ClientPrompt {
  import opened Protocol
  import opened Json
  import opened Sse
  import opened SseLaws

  /** The event WriteSSE sends for a payload. */
  function Wire(p: Payload): Event { Event(EventName(p), Marshal(p)) }

  function Wires(ps: seq<Payload>): seq<Event> {
    seq(|ps|, i requires 0 <= i < |ps| => Wire(ps[i]))
  }

  /** What the client's callback does with one event. */
  datatype Reaction = Deliver(delta: string) | Skip | Finish(reason: string) | Abort

  function React(e: Event): Reaction {
    if e.name == "token" || e.name == "done" || e.name == "error" then
      match Unmarshal(e.name, e.data)
      case Some(Token(d)) => Deliver(d)
      case Some(Done(r)) => Finish(r)
      case _ => Abort
    else Skip
  }

  function Reactions(events: seq<Event>): seq<Reaction> {
    seq(|events|, i requires 0 <= i < |events| => React(events[i]))
  }

  /** The deltas handed to onDelta in these reactions. */
  function Deltas(rs: seq<Reaction>): seq<string> {
    if rs == [] then []
    else Deltas(rs[..|rs| - 1]) + if rs[|rs| - 1].Deliver? then [rs[|rs| - 1].delta] else []
  }

  /** The finish reason after these reactions, "" if there was none. */
  function FinishReason(rs: seq<Reaction>): string {
    if rs == [] then ""
    else if rs[|rs| - 1].Finish? then rs[|rs| - 1].reason
    else FinishReason(rs[..|rs| - 1])
  }

  /** The last reaction was to a done event. */
  predicate SawDone(rs: seq<Reaction>) {
    rs != [] && rs[|rs| - 1].Finish?
  }

  /** Whether the callback lets the reader go on after these reactions; `onDelta`
      refuses a delta by returning false on the deltas so far. */
  predicate GoesOn(rs: seq<Reaction>, onDelta: seq<string> -> bool) {
    rs != [] ==>
      match rs[|rs| - 1]
      case Deliver(_) => onDelta(Deltas(rs))
      case Skip => true
      case Finish(_) => false
      case Abort => false
  }

  function Callback(onDelta: seq<string> -> bool): seq<Event> -> bool {
    events => GoesOn(Reactions(events), onDelta)
  }

  /** The client's reactions to the events its callback is called with. */
  function Seen(body: string, onDelta: seq<string> -> bool): seq<Reaction> {
    Reactions(Dispatch([], Events(body), Callback(onDelta)).0)
  }

  /** Whether Prompt returns an error: the callback gave up, or nothing stopped the
      reading and the stream was bad. */
  predicate Fails(body: string, readFailed: bool, onDelta: seq<string> -> bool) {
    if Dispatch([], Events(body), Callback(onDelta)).1 then !AllFit(SplitLines(body)) || readFailed
    else !SawDone(Seen(body, onDelta))
  }

  /** Reads a prompt response: the deltas handed on, the finish reason ("" when
      no done event was seen) and whether an error is returned. */
  method Prompt(body: string, readFailed: bool, onDelta: seq<string> -> bool)
      returns (deltas: seq<string>, finish: string, failed: bool)
    ensures deltas == Deltas(Seen(body, onDelta))
    ensures finish == FinishReason(Seen(body, onDelta))
    ensures failed <==> Fails(body, readFailed, onDelta)
  {
    var events, outcome := ReadSse(body, readFailed, Callback(onDelta));
    deltas, finish := Collect(events);
    var stopped := outcome == CallbackFailed && React(events[|events| - 1]).Finish?;
    failed := outcome != Complete && !stopped;
  }

  /** What the callback has gathered once it has been called with each event. */
  method Collect(events: seq<Event>) returns (deltas: seq<string>, finish: string)
    ensures deltas == Deltas(Reactions(events)) && finish == FinishReason(Reactions(events))
  {
    deltas, finish := [], "";
    ghost var rs := Reactions(events);
    for i := 0 to |events|
      invariant deltas == Deltas(rs[..i]) && finish == FinishReason(rs[..i])
    {
      assert rs[..i + 1][..i] == rs[..i];
      var r := React(events[i]);
      assert r == rs[i];
      match r {
        case Deliver(d) => deltas := deltas + [d];
        case Finish(reason) => finish := reason;
        case _ =>
      }
    }
    assert rs[..|rs|] == rs;
  }

  // ---- Payloads on the wire ----

  lemma BracedIsClean(s: string)
    requires Printable(s) && |s| >= 2 && s[0] == '{' && s[|s| - 1] == '}'
    ensures OneLine(s) && Trimmed(s)
  { }

  lemma NameIsClean(p: Payload)
    ensures OneLine(EventName(p)) && Trimmed(EventName(p))
  { }

  lemma WireIsClean(p: Payload)
    ensures Clean(Wire(p))
  {
    NameIsClean(p);
    MarshalIsOneLine(p);
    BracedIsClean(Marshal(p));
  }

  lemma ReactToWire(p: Payload)
    ensures React(Wire(p)) ==
      match p { case Token(d) => Deliver(d) case Done(r) => Finish(r) case Error(_, _) => Abort }
  {
    PayloadRoundTrip(p);
  }

  /** A written event cut short makes the client abort. */
  lemma ReactToCut(p: Payload, e: Event, q: string)
    requires e.name == EventName(p) && q <= Marshal(p) && e.data == Trim(q)
    ensures e == Wire(p) || React(e) == Abort
  {
    MarshalIsOneLine(p);
    var full := Marshal(p);
    if q == "" {
      assert Trim(q) == "" < full;
      PayloadTruncated(p, "");
    } else {
      assert q[0] == '{';
      TrimRightIsPrefix(q);
      if Trim(q) != full {
        assert Trim(q) < full;
        PayloadTruncated(p, Trim(q));
      }
    }
  }

  lemma WiresAreClean(frames: seq<Payload>)
    ensures AllClean(Wires(frames))
  {
    var events := Wires(frames);
    forall i | 0 <= i < |events| ensures Clean(events[i]) { WireIsClean(frames[i]); }
  }

  /** Each event of `got` is the event written at its place, or one the client aborts on. */
  predicate AsWritten(frames: seq<Payload>, got: seq<Event>) {
    |got| <= |frames| && forall i | 0 <= i < |got| :: got[i] == Wire(frames[i]) || React(got[i]) == Abort
  }

  lemma CutAt(frames: seq<Payload>, got: seq<Event>, i: nat)
    requires CutShort(Wires(frames), got) && i < |got|
    ensures i < |frames|
    ensures got[i] == Wire(frames[i]) || React(got[i]) == Abort
  {
    var events := Wires(frames);
    if got <= events {
      assert got[i] == events[i];
    } else if i < |got| - 1 {
      assert got[i] == got[..|got| - 1][i] == events[i];
    } else {
      var q :| q <= events[i].data && got[i].data == Trim(q);
      ReactToCut(frames[i], got[i], q);
    }
  }

  lemma CutShortAsWritten(frames: seq<Payload>, got: seq<Event>)
    requires CutShort(Wires(frames), got)
    ensures AsWritten(frames, got)
  {
    assert |got| <= |Wires(frames)|;
    forall i | 0 <= i < |got| ensures got[i] == Wire(frames[i]) || React(got[i]) == Abort {
      CutAt(frames, got, i);
    }
  }

  /** This holds of whatever is read from a prefix of a written stream. */
  lemma ReadsAsWritten(frames: seq<Payload>, body: string)
    requires body <= Stream(Wires(frames))
    ensures AsWritten(frames, Events(body))
  {
    WiresAreClean(frames);
    Truncation(Wires(frames), body);
    CutShortAsWritten(frames, Events(body));
  }

  // ---- What the client gets ----

  lemma {:induction false} DispatchStopsOnce(done: seq<Event>, pending: seq<Event>, accept: seq<Event> -> bool, i: nat)
    requires var seen := Dispatch(done, pending, accept).0; |done| <= i < |seen| - 1
    ensures var seen := Dispatch(done, pending, accept).0; accept(seen[..i + 1])
    decreases |pending|
  {
    var next := done + [pending[0]];
    var seen := Dispatch(done, pending, accept).0;
    if accept(next) {
      if i == |done| {
        assert seen[..i + 1] == next;
      } else {
        DispatchStopsOnce(next, pending[1..], accept, i);
      }
    }
  }

  /** The reaction to what was written for `p`: the one meant, or giving up. */
  predicate Expected(p: Payload, r: Reaction) {
    || r == Abort
    || match p
       case Token(d) => r == Deliver(d)
       case Done(reason) => r == Finish(reason)
       case Error(_, _) => false
  }

  /** Reactions to (part of) a written response: as meant, one per event, and
      only the last one may end the reading. */
  predicate Faithful(frames: seq<Payload>, rs: seq<Reaction>) {
    && |rs| <= |frames|
    && forall i | 0 <= i < |rs| :: Expected(frames[i], rs[i]) && (i < |rs| - 1 ==> rs[i].Deliver? || rs[i].Skip?)
  }

  lemma LastGoesOn(events: seq<Event>, onDelta: seq<string> -> bool)
    requires events != [] && Callback(onDelta)(events)
    ensures var r := React(events[|events| - 1]); r.Deliver? || r.Skip?
  {
    assert Reactions(events)[|events| - 1] == React(events[|events| - 1]);
  }

  lemma AsWrittenIsExpected(p: Payload, e: Event)
    requires e == Wire(p) || React(e) == Abort
    ensures Expected(p, React(e))
  {
    ReactToWire(p);
  }

  lemma FaithfulAt(frames: seq<Payload>, got: seq<Event>, events: seq<Event>, onDelta: seq<string> -> bool, i: nat)
    requires AsWritten(frames, got) && events == Dispatch([], got, Callback(onDelta)).0 && i < |events|
    ensures i < |frames| && Expected(frames[i], React(events[i]))
    ensures i < |events| - 1 ==> React(events[i]).Deliver? || React(events[i]).Skip?
  {
    assert [] + got == got && events <= got;
    assert events[i] == got[i];
    AsWrittenIsExpected(frames[i], got[i]);
    if i < |events| - 1 {
      DispatchStopsOnce([], got, Callback(onDelta), i);
      LastGoesOn(events[..i + 1], onDelta);
    }
  }

  lemma FaithfulReactions(frames: seq<Payload>, got: seq<Event>, events: seq<Event>, onDelta: seq<string> -> bool)
    requires AsWritten(frames, got) && events == Dispatch([], got, Callback(onDelta)).0
    ensures Faithful(frames, Reactions(events))
  {
    if events != [] { FaithfulAt(frames, got, events, onDelta, |events| - 1); }
    var rs := Reactions(events);
    forall i | 0 <= i < |rs| ensures Expected(frames[i], rs[i]) && (i < |rs| - 1 ==> rs[i].Deliver? || rs[i].Skip?) {
      FaithfulAt(frames, got, events, onDelta, i);
      assert rs[i] == React(events[i]);
    }
  }

  /** Whatever prefix of a written response the client receives, it reacts faithfully. */
  lemma SeenIsFaithful(frames: seq<Payload>, body: string, onDelta: seq<string> -> bool)
    requires body <= Stream(Wires(frames))
    ensures Faithful(frames, Seen(body, onDelta))
  {
    ReadsAsWritten(frames, body);
    FaithfulReactions(frames, Events(body), Dispatch([], Events(body), Callback(onDelta)).0, onDelta);
  }

  /** The deltas handed on for the first k events are the first tokens written,
      as long as only tokens were written there. */
  lemma {:induction false} DeltasArePrefix(tokens: seq<string>, frames: seq<Payload>, rs: seq<Reaction>, k: nat)
    requires Faithful(frames, rs) && Tokens(tokens) <= frames && k <= |rs| && k <= |tokens|
    ensures Deltas(rs[..k]) <= tokens
    ensures k < |rs| ==> Deltas(rs[..k]) == tokens[..k]
  {
    if k > 0 {
      DeltasArePrefix(tokens, frames, rs, k - 1);
      assert Tokens(tokens)[k - 1] == frames[k - 1];
      assert rs[..k][..k - 1] == rs[..k - 1];
      assert tokens[..k - 1] + [tokens[k - 1]] == tokens[..k];
      assert Expected(frames[k - 1], rs[k - 1]);
    }
  }

  /** A finish reason comes from a done event, the last event seen. */
  lemma {:induction false} FinishIsLast(frames: seq<Payload>, rs: seq<Reaction>, k: nat)
    requires Faithful(frames, rs) && k <= |rs| && FinishReason(rs[..k]) != ""
    ensures k == |rs| > 0 && frames[k - 1] == Done(FinishReason(rs[..k])) && SawDone(rs)
  {
    assert rs[..k][..k - 1] == rs[..k - 1];
    assert Expected(frames[k - 1], rs[k - 1]);
    if !rs[k - 1].Finish? {
      FinishIsLast(frames, rs, k - 1);
    }
  }

  /** The client's view of a response of tokens and at most one terminal event,
      however early it was cut: it hands on a prefix of the tokens, and if it has
      seen a done event, which it has whenever it reports a finish reason, then it
      has handed on all of them and the response ended with that event. */
  lemma ClientSeesTheTruth(tokens: seq<string>, terminal: seq<Payload>, rs: seq<Reaction>)
    requires |terminal| <= 1 && forall p | p in terminal :: !p.Token?
    requires Faithful(Tokens(tokens) + terminal, rs)
    ensures Deltas(rs) <= tokens
    ensures FinishReason(rs) != "" ==> SawDone(rs)
    ensures SawDone(rs) ==> Deltas(rs) == tokens && terminal == [Done(FinishReason(rs))]
  {
    var frames := Tokens(tokens) + terminal;
    assert rs[..|rs|] == rs;
    if FinishReason(rs) != "" { FinishIsLast(frames, rs, |rs|); }
    if |rs| <= |tokens| {
      DeltasArePrefix(tokens, frames, rs, |rs|);
    } else {
      var n := |tokens|;
      assert |rs| == n + 1 && frames[n] == terminal[0];
      DeltasArePrefix(tokens, frames, rs, n);
      assert tokens[..n] == tokens && rs[..|rs| - 1] == rs[..n];
      assert Expected(frames[n], rs[n]);
    }
  }
}
