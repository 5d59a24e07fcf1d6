/** What GatewayClient.Prompt returns for a response that arrives whole, and when it
    returns an error at all (internal/client/transport.go). */
module WholeResponse {
  import opened Protocol
  import opened Sse
  import opened SseLaws
  import opened ClientPrompt
  import opened ClientEnds

  // ---- Events that are dispatched ----

  lemma {:induction false} LastAccepted(done: seq<Event>, pending: seq<Event>, accept: seq<Event> -> bool)
    requires Dispatch(done, pending, accept).1 && (done == [] || accept(done))
    ensures var seen := Dispatch(done, pending, accept).0; seen == [] || accept(seen)
    decreases |pending|
  {
    if pending != [] {
      LastAccepted(done + [pending[0]], pending[1..], accept);
    }
  }

  /** The client gave up on the last event: it could not be decoded or is an error
      event, or its delta was refused. */
  predicate GaveUp(rs: seq<Reaction>, onDelta: seq<string> -> bool) {
    rs != [] && (rs[|rs| - 1].Abort? || (rs[|rs| - 1].Deliver? && !onDelta(Deltas(rs))))
  }

  /** For any body, connection and callback: Prompt returns an error exactly if no done
      event was reached and the client gave up on an event, a line was too long or the
      connection broke. */
  lemma FailsIff(body: string, readFailed: bool, onDelta: seq<string> -> bool)
    ensures var rs := Seen(body, onDelta);
      Fails(body, readFailed, onDelta) <==>
        !SawDone(rs) && (GaveUp(rs, onDelta) || !AllFit(SplitLines(body)) || readFailed)
  {
    var accept := Callback(onDelta);
    var (seen, ok) := Dispatch([], Events(body), accept);
    if ok {
      LastAccepted([], Events(body), accept);
    } else {
      assert !accept(seen);
    }
    assert Seen(body, onDelta) == Reactions(seen);
  }

  // ---- A whole response ----

  function TokenEvents(ds: seq<string>): seq<Event> { Wires(Tokens(ds)) }

  lemma TakeOneMore<T>(s: seq<T>, k: nat)
    requires k < |s|
    ensures s[..k + 1] == s[..k] + [s[k]]
  { }

  lemma TokenEventsPush(ds: seq<string>, d: string)
    ensures TokenEvents(ds + [d]) == TokenEvents(ds) + [Wire(Token(d))]
  {
    assert Tokens(ds + [d]) == Tokens(ds) + [Token(d)];
  }

  lemma GatheredPush(rs: seq<Reaction>, r: Reaction)
    ensures Deltas(rs + [r]) == if r.Deliver? then Deltas(rs) + [r.delta] else Deltas(rs)
    ensures FinishReason(rs + [r]) == if r.Finish? then r.reason else FinishReason(rs)
  {
    assert (rs + [r])[..|rs|] == rs;
  }

  lemma {:induction false} TokenReactions(ds: seq<string>)
    ensures Deltas(Reactions(TokenEvents(ds))) == ds && FinishReason(Reactions(TokenEvents(ds))) == ""
    ensures ds != [] ==> Reactions(TokenEvents(ds))[|ds| - 1] == Deliver(ds[|ds| - 1])
  {
    if ds != [] {
      var front, last := ds[..|ds| - 1], ds[|ds| - 1];
      TokenReactions(front);
      TakeOneMore(ds, |ds| - 1);
      assert ds[..|ds|] == ds;
      TokenEventsPush(front, last);
      PushReaction(TokenEvents(front), Token(last));
    }
  }

  lemma PushReaction(events: seq<Event>, p: Payload)
    ensures var r := match p { case Token(d) => Deliver(d) case Done(why) => Finish(why) case Error(_, _) => Abort };
      var rs := Reactions(events + [Wire(p)]);
      && |rs| == |events| + 1 && rs[|events|] == r
      && Deltas(rs) == (if r.Deliver? then Deltas(Reactions(events)) + [r.delta] else Deltas(Reactions(events)))
      && FinishReason(rs) == if r.Finish? then r.reason else FinishReason(Reactions(events))
  {
    ReactToWire(p);
    ReactionsPush(events, Wire(p));
    GatheredPush(Reactions(events), React(Wire(p)));
  }

  /** The callback takes the first `m` deltas. */
  predicate Takes(onDelta: seq<string> -> bool, ds: seq<string>, m: nat)
    requires m <= |ds|
  {
    forall j | 0 < j <= m :: onDelta(ds[..j])
  }

  lemma TakeTokens(ds: seq<string>, k: nat)
    requires k <= |ds|
    ensures TokenEvents(ds)[..k] == TokenEvents(ds[..k])
  { }

  lemma NextToken(ds: seq<string>, k: nat, onDelta: seq<string> -> bool)
    requires k < |ds|
    ensures TokenEvents(ds)[..k + 1] == TokenEvents(ds)[..k] + [TokenEvents(ds)[k]]
    ensures Callback(onDelta)(TokenEvents(ds)[..k + 1]) <==> onDelta(ds[..k + 1])
  {
    TakeOneMore(TokenEvents(ds), k);
    TakeTokens(ds, k + 1);
    TokensGoOn(ds[..k + 1], onDelta);
  }

  lemma TokensGoOn(ds: seq<string>, onDelta: seq<string> -> bool)
    requires ds != []
    ensures Callback(onDelta)(TokenEvents(ds)) <==> onDelta(ds)
  {
    TokenReactions(ds);
  }

  /** The tokens taken are dispatched one after the other. */
  lemma {:induction false} TokensAreHandedOn(ds: seq<string>, k: nat, m: nat, all: seq<Event>,
                                             onDelta: seq<string> -> bool)
    requires k <= m <= |ds| && Takes(onDelta, ds, m) && TokenEvents(ds) <= all
    ensures Dispatch(TokenEvents(ds)[..k], all[k..], Callback(onDelta))
         == Dispatch(TokenEvents(ds)[..m], all[m..], Callback(onDelta))
    decreases m - k
  {
    if k < m {
      NextToken(ds, k, onDelta);
      assert all[k] == TokenEvents(ds)[k] && all[k..][1..] == all[k + 1..];
      TokensAreHandedOn(ds, k + 1, m, all, onDelta);
    }
  }

  /** What Prompt returns for a whole response: tokens `ds`, then at most one terminal
      event. `m` counts the deltas the callback takes. */
  predicate Returns(ds: seq<string>, terminal: seq<Payload>, m: nat, rs: seq<Reaction>, readFailed: bool, failed: bool)
    requires m <= |ds|
  {
    if m < |ds| then Deltas(rs) == ds[..m + 1] && FinishReason(rs) == "" && failed
    else
      && Deltas(rs) == ds
      && if terminal == [] then FinishReason(rs) == "" && (failed <==> readFailed)
         else match terminal[0]
              case Token(_) => true
              case Done(reason) => FinishReason(rs) == reason && !failed
              case Error(_, _) => FinishReason(rs) == "" && failed
  }

  lemma RefusedToken(ds: seq<string>, m: nat, all: seq<Event>, onDelta: seq<string> -> bool)
    requires m < |ds| && Takes(onDelta, ds, m) && !onDelta(ds[..m + 1]) && TokenEvents(ds) <= all
    ensures Dispatch([], all, Callback(onDelta)) == (TokenEvents(ds[..m + 1]), false)
  {
    TokensAreHandedOn(ds, 0, m, all, onDelta);
    NextToken(ds, m, onDelta);
    TakeTokens(ds, m + 1);
    assert all[0..] == all && TokenEvents(ds)[..0] == [];
    assert all[m..][0] == TokenEvents(ds)[m];
  }

  lemma DispatchLast(done: seq<Event>, last: seq<Event>, accept: seq<Event> -> bool)
    requires |last| <= 1
    ensures Dispatch(done, last, accept) == (done + last, last == [] || accept(done + last))
  {
    if last == [] {
      assert done + last == done;
    } else {
      assert last == [last[0]] && last[1..] == [];
    }
  }

  lemma AroundTokens(events: seq<Event>, last: seq<Event>)
    ensures (events + last)[0..] == events + last && (events + last)[|events|..] == last
    ensures events[..0] == [] && events[..|events|] == events && events <= events + last
  { }

  lemma AfterTokens(ds: seq<string>, last: seq<Event>, onDelta: seq<string> -> bool)
    requires Takes(onDelta, ds, |ds|) && |last| <= 1
    ensures Dispatch([], TokenEvents(ds) + last, Callback(onDelta))
         == (TokenEvents(ds) + last, last == [] || Callback(onDelta)(TokenEvents(ds) + last))
  {
    AroundTokens(TokenEvents(ds), last);
    TokensAreHandedOn(ds, 0, |ds|, TokenEvents(ds) + last, onDelta);
    DispatchLast(TokenEvents(ds), last, Callback(onDelta));
  }

  lemma {:induction false} FramesFitInLines(events: seq<Event>)
    requires AllClean(events) && forall i | 0 <= i < |events| :: FrameFits(events[i])
    ensures AllFit(SplitLines(Stream(events)))
  {
    if events != [] {
      FramesFitInLines(events[1..]);
      FrameLines(events[0], Stream(events[1..]));
      LinesOfFrame(events[0], SplitLines(Stream(events[1..])));
    }
  }

  lemma WholeIsRead(frames: seq<Payload>)
    requires forall i | 0 <= i < |frames| :: FrameFits(Wire(frames[i]))
    ensures Events(Stream(Wires(frames))) == Wires(frames) && AllFit(SplitLines(Stream(Wires(frames))))
  {
    WiresAreClean(frames);
    RoundTripIff(Wires(frames));
    FramesFitInLines(Wires(frames));
  }

  lemma SplitWires(ds: seq<string>, terminal: seq<Payload>)
    ensures Wires(Tokens(ds) + terminal) == TokenEvents(ds) + Wires(terminal)
  { }

  lemma WholeRefused(ds: seq<string>, m: nat, body: string, readFailed: bool, onDelta: seq<string> -> bool)
    requires m < |ds| && Takes(onDelta, ds, m) && !onDelta(ds[..m + 1]) && TokenEvents(ds) <= Events(body)
    ensures Deltas(Seen(body, onDelta)) == ds[..m + 1] && FinishReason(Seen(body, onDelta)) == ""
    ensures Fails(body, readFailed, onDelta)
  {
    RefusedToken(ds, m, Events(body), onDelta);
    TokenReactions(ds[..m + 1]);
    FailsIff(body, readFailed, onDelta);
  }

  lemma WholeUnfinished(ds: seq<string>, body: string, readFailed: bool, onDelta: seq<string> -> bool)
    requires Takes(onDelta, ds, |ds|) && Events(body) == TokenEvents(ds) && AllFit(SplitLines(body))
    ensures Deltas(Seen(body, onDelta)) == ds && FinishReason(Seen(body, onDelta)) == ""
    ensures Fails(body, readFailed, onDelta) <==> readFailed
  {
    AfterTokens(ds, [], onDelta);
    assert TokenEvents(ds) + [] == TokenEvents(ds);
    TokenReactions(ds);
  }

  lemma WholeFinished(ds: seq<string>, p: Payload, body: string, readFailed: bool, onDelta: seq<string> -> bool)
    requires Takes(onDelta, ds, |ds|) && Events(body) == TokenEvents(ds) + [Wire(p)] && !p.Token?
    ensures Deltas(Seen(body, onDelta)) == ds
    ensures FinishReason(Seen(body, onDelta)) == if p.Done? then p.finishReason else ""
    ensures Fails(body, readFailed, onDelta) <==> p.Error?
  {
    AfterTokens(ds, [Wire(p)], onDelta);
    TokenReactions(ds);
    PushReaction(TokenEvents(ds), p);
    assert !Callback(onDelta)(TokenEvents(ds) + [Wire(p)]);
  }

  /** A response that has arrived whole: a client that takes every delta gets all of
      them; with a done event it returns its reason and no error, even if the connection
      breaks afterwards, and with an error event an error. A client that refuses a delta
      gets an error right there. */
  lemma WholeIsReturned(ds: seq<string>, terminal: seq<Payload>, m: nat, readFailed: bool, onDelta: seq<string> -> bool)
    requires |terminal| <= 1 && forall p | p in terminal :: !p.Token?
    requires forall i | 0 <= i < |Tokens(ds) + terminal| :: FrameFits(Wire((Tokens(ds) + terminal)[i]))
    requires m <= |ds| && Takes(onDelta, ds, m) && (m < |ds| ==> !onDelta(ds[..m + 1]))
    ensures var body := Stream(Wires(Tokens(ds) + terminal));
      Returns(ds, terminal, m, Seen(body, onDelta), readFailed, Fails(body, readFailed, onDelta))
  {
    var body := Stream(Wires(Tokens(ds) + terminal));
    WholeIsRead(Tokens(ds) + terminal);
    SplitWires(ds, terminal);
    if m < |ds| {
      WholeRefused(ds, m, body, readFailed, onDelta);
    } else if terminal == [] {
      assert TokenEvents(ds) + Wires(terminal) == TokenEvents(ds);
      WholeUnfinished(ds, body, readFailed, onDelta);
    } else {
      assert Wires(terminal) == [Wire(terminal[0])];
      WholeFinished(ds, terminal[0], body, readFailed, onDelta);
    }
  }

  // ---- Events the client does not know ----

  /** What Prompt makes of the events dispatched: it is the same for both. */
  predicate SameSoFar(a: seq<Event>, b: seq<Event>) {
    Deltas(Reactions(a)) == Deltas(Reactions(b)) && FinishReason(Reactions(a)) == FinishReason(Reactions(b))
  }

  predicate SameEnd(a: (seq<Event>, bool), b: (seq<Event>, bool)) {
    a.1 == b.1 && SameSoFar(a.0, b.0) && (!a.1 ==> (SawDone(Reactions(a.0)) <==> SawDone(Reactions(b.0))))
  }

  lemma SamePush(a: seq<Event>, b: seq<Event>, e: Event, onDelta: seq<string> -> bool)
    requires SameSoFar(a, b)
    ensures SameSoFar(a + [e], b + [e])
    ensures Callback(onDelta)(a + [e]) <==> Callback(onDelta)(b + [e])
    ensures SawDone(Reactions(a + [e])) <==> SawDone(Reactions(b + [e]))
  {
    ReactionsPush(a, e);
    ReactionsPush(b, e);
    SameReaction(Reactions(a), Reactions(b), React(e), onDelta);
  }

  lemma SameReaction(x: seq<Reaction>, y: seq<Reaction>, r: Reaction, onDelta: seq<string> -> bool)
    requires Deltas(x) == Deltas(y) && FinishReason(x) == FinishReason(y)
    ensures Deltas(x + [r]) == Deltas(y + [r]) && FinishReason(x + [r]) == FinishReason(y + [r])
    ensures GoesOn(x + [r], onDelta) <==> GoesOn(y + [r], onDelta)
    ensures SawDone(x + [r]) <==> SawDone(y + [r])
  {
    GatheredPush(x, r);
    GatheredPush(y, r);
  }

  lemma {:induction false} SameFrom(a: seq<Event>, b: seq<Event>, pending: seq<Event>, onDelta: seq<string> -> bool)
    requires SameSoFar(a, b)
    ensures SameEnd(Dispatch(a, pending, Callback(onDelta)), Dispatch(b, pending, Callback(onDelta)))
    decreases |pending|
  {
    if pending != [] {
      SamePush(a, b, pending[0], onDelta);
      SameFrom(a + [pending[0]], b + [pending[0]], pending[1..], onDelta);
    }
  }

  lemma UnknownPush(done: seq<Event>, x: Event, onDelta: seq<string> -> bool)
    requires x.name != "token" && x.name != "done" && x.name != "error"
    ensures SameSoFar(done + [x], done) && Callback(onDelta)(done + [x])
  {
    ReactionsPush(done, x);
    GatheredPush(Reactions(done), React(x));
  }

  /** An event with another name, wherever it comes, changes nothing: neither the deltas
      handed on, nor the reason, nor whether there is an error. */
  lemma {:induction false} UnknownEventsAreSkipped(done: seq<Event>, before: seq<Event>, x: Event, after: seq<Event>,
                                                   onDelta: seq<string> -> bool)
    requires x.name != "token" && x.name != "done" && x.name != "error"
    ensures SameEnd(Dispatch(done, before + ([x] + after), Callback(onDelta)),
                    Dispatch(done, before + after, Callback(onDelta)))
    decreases |before|
  {
    var accept := Callback(onDelta);
    if before == [] {
      assert before + ([x] + after) == [x] + after && before + after == after && ([x] + after)[1..] == after;
      UnknownPush(done, x, onDelta);
      SameFrom(done + [x], done, after, onDelta);
    } else {
      assert (before + ([x] + after))[1..] == before[1..] + ([x] + after);
      assert (before + after)[1..] == before[1..] + after;
      UnknownEventsAreSkipped(done + [before[0]], before[1..], x, after, onDelta);
    }
  }
}
