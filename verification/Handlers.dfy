/** handlePrompt and streamPrompt (internal/gateway/handlers.go) in their own,
    sequential form: what one handler does to the manager and to the response
    when nobody interferes. World gives the same script as separate steps. */
module Handlers {
  import opened Base
  import opened Settings
  import opened Store
  import opened Manager
  import opened Protocol
  import opened Sse
  import opened ClientPrompt
  import opened Providers
  import opened World

  /** What Err of the generation context returns: the first cause it ended with. */
  datatype ContextError = NoError | DeadlineExceeded | Canceled

  /** The contexts as the switch finds them; `gone` is whether the client has left. */
  datatype Contexts = Contexts(gone: bool, err: ContextError)

  /** The branch of the switch, its cases tried in order. */
  function Choose(c: Completion, ctx: Contexts): Outcome {
    if ctx.gone then Disconnected
    else if c.Failed? then UpstreamError(c.message)
    else if ctx.err == DeadlineExceeded then TimedOut
    else if ctx.err == Canceled then Outcome.Cancelled(c.text)
    else Finished(c.text, c.finishReason)
  }

  /** The contexts of handler `gen`, as a state of the protocol has them. */
  predicate Reads(w: World, gen: Gen, ctx: Contexts) {
    && gen in w.handlers
    && var h := w.handlers[gen];
       && (ctx.gone ==> h.gone)
       && match ctx.err
          case DeadlineExceeded => h.timedOut
          case Canceled => !h.timedOut && (gen in w.store.fired || h.gone)
          case NoError => !h.timedOut && gen !in w.store.fired
  }

  /** The branches the interleaved protocol allows are exactly those chosen for the
      contexts the switch can find. */
  lemma ChoiceIsAllowed(w: World, gen: Gen, c: Completion, o: Outcome)
    requires gen in w.handlers && w.handlers[gen].phase == Phase.Returned(c)
    ensures CanDecide(w, gen, o) <==> exists ctx :: Reads(w, gen, ctx) && Choose(c, ctx) == o
  {
    var h := w.handlers[gen];
    var err := if h.timedOut then DeadlineExceeded
               else if o.Finished? || !(gen in w.store.fired || h.gone) then NoError
               else Canceled;
    if CanDecide(w, gen, o) {
      assert Reads(w, gen, Contexts(o.Disconnected?, err)) && Choose(c, Contexts(o.Disconnected?, err)) == o;
    }
  }

  // ---- What a caller sees ----

  /** `events` is what the response ends with: nothing for a client that has gone,
      whatever the provider returned; otherwise an error event for a failed call or a
      timeout, and a done event in the other cases. */
  predicate TerminalFits(events: seq<Payload>, c: Completion, ctx: Contexts) {
    if ctx.gone then
      events == []
    else
      match c
      case Failed(m) => events == [Payload.Error("upstream_error", m)]
      case Completed(_, reason) =>
        match ctx.err
        case DeadlineExceeded => events == [Payload.Error("generation_timeout", "generation timed out")]
        case Canceled => events == [Done("cancelled")]
        case NoError => events == [Done(reason)]
  }

  /** The call has succeeded in time for a client that is still there. */
  predicate Succeeds(c: Completion, ctx: Contexts) {
    !ctx.gone && c.Completed? && ctx.err != DeadlineExceeded
  }

  /** Session `i`, whose view was `s`, after the end of a prompt: gone if the client is,
      otherwise ready again with the reply or without the prompt. */
  predicate SettledAs(s: SessionView, sessions: map<string, SessionView>, i: string, c: Completion, ctx: Contexts,
                      deadline: int)
  {
    if ctx.gone then i !in sessions
    else
      var n := |s.history|;
      && i in sessions
      && sessions[i].state == Approved && sessions[i].idleDeadline == deadline && sessions[i].genCancel == None
      && sessions[i].settings == s.settings && sessions[i].controlToken == s.controlToken
      && sessions[i].history ==
         if Succeeds(c, ctx) then s.history + (if c.text == "" then [] else [Message(Assistant, c.text)])
         else if n > 0 && s.history[n - 1].role == User then s.history[..n - 1]
         else s.history
  }

  /** The same for a prompt from its start on, whose session was `s`: extended by the
      exchange exactly if the call succeeds. */
  predicate ExchangedAs(s: SessionView, sessions: map<string, SessionView>, i: string, content: string,
                        c: Completion, ctx: Contexts)
  {
    if ctx.gone then i !in sessions
    else
      && i in sessions && sessions[i].state == Approved
      && sessions[i].history == s.history +
         if Succeeds(c, ctx) then [Message(User, content)] + (if c.text == "" then [] else [Message(Assistant, c.text)])
         else []
  }

  lemma ChoiceFits(c: Completion, ctx: Contexts)
    ensures TerminalFits(Choose(c, ctx).Terminal(), c, ctx)
  { }

  lemma BranchSettles(cfg: Config, st: Store, i: string, c: Completion, ctx: Contexts, end: int)
    requires i in st.sessions
    ensures SettledAs(st.sessions[i], Branch(cfg, st, i, c, ctx, end).sessions, i, c, ctx, end + cfg.idleTimeout)
  { }

  lemma PromptExchanges(cfg: Config, st: Store, gen: Gen, i: string, content: string, c: Completion, ctx: Contexts,
                        start: int, end: int)
    requires i in st.sessions && st.sessions[i].state == Approved
    ensures ExchangedAs(st.sessions[i], AfterPrompt(cfg, st, gen, i, content, Choose(c, ctx), start, end).sessions,
                        i, content, c, ctx)
  {
    UndisturbedPrompt(cfg, st, gen, i, content, Choose(c, ctx), start, end);
  }

  // ---- The response ----

  /** The callback that writes the deltas: an error once the connection, which takes
      `room` characters, has broken. */
  function Writes(room: nat): seq<string> -> bool {
    (deltas: seq<string>) => |Stream(Wires(Tokens(deltas)))| <= room
  }

  /** What a session that was prepared for `content` becomes under outcome `o`. */
  function Settled(s: SessionView, content: string, o: Outcome, deadline: int): SessionView {
    var answer := match o.Reply() case Some(t) => [Message(User, content)] + Answer(t) case None => [];
    s.(state := Approved, history := s.history + answer, idleDeadline := deadline, genCancel := None)
  }

  function Answer(text: string): seq<Message> {
    if text == "" then [] else [Message(Assistant, text)]
  }

  datatype Response =
    | Rejected(status: nat, code: string)
    | Unflushable
    | Streamed(request: CompletionRequest, outcome: Outcome)

  /** The refusal of a prompt that cannot be prepared. */
  function Refusal(st: Store, i: string, content: string): Option<Response> {
    if content == "" then Some(Rejected(400, "bad_request"))
    else if i !in st.sessions then Some(Rejected(404, "not_found"))
    else if st.sessions[i].state == Waiting then Some(Rejected(403, "pairing_pending"))
    else if st.sessions[i].state != Approved then Some(Rejected(403, "not_approved"))
    else None
  }

  /** A prompt that is admitted. */
  predicate Ready(st: Store, i: string, content: string) {
    content != "" && i in st.sessions && st.sessions[i].state == Approved
  }

  /** `r` refuses a prompt that is not: what is wrong with it, in the order of the tests. */
  predicate RefusedAs(st: Store, i: string, content: string, r: Response) {
    || (content == "" && r == Rejected(400, "bad_request"))
    || (content != "" && i !in st.sessions && r == Rejected(404, "not_found"))
    || (content != "" && i in st.sessions && st.sessions[i].state == Waiting && r == Rejected(403, "pairing_pending"))
    || (content != "" && i in st.sessions && (st.sessions[i].state == Active || st.sessions[i].state == Destroyed)
        && r == Rejected(403, "not_approved"))
  }

  lemma RefusalIsRefusedAs(st: Store, i: string, content: string)
    ensures Refusal(st, i, content).None? <==> Ready(st, i, content)
    ensures Refusal(st, i, content).Some? ==> RefusedAs(st, i, content, Refusal(st, i, content).value)
  { }

  /** The store once the prompt has been admitted and has ended with `o`. */
  function AfterPrompt(cfg: Config, st: Store, gen: Gen, i: string, content: string, o: Outcome, start: int,
                       end: int): Store {
    var registered := st.PreparePrompt(cfg, i, content, start).0.SetGenCancel(i, gen).0;
    AfterStream(cfg, registered, i, o, end)
  }

  function AfterStream(cfg: Config, registered: Store, i: string, o: Outcome, end: int): Store {
    if o.Disconnected? then registered.Destroy(i) else Settle(cfg, registered, i, o, end)
  }

  /** A prompt nobody interferes with is a transaction: unless the client has
      disconnected, only the history, by the whole exchange or not at all, and
      the deadline of its session have changed; otherwise the session is gone. */
  lemma UndisturbedPrompt(cfg: Config, st: Store, gen: Gen, i: string, content: string, o: Outcome, start: int,
                          end: int)
    requires i in st.sessions && st.sessions[i].state == Approved
    ensures var was, now := st.sessions[i], AfterPrompt(cfg, st, gen, i, content, o, start, end);
      if o.Disconnected? then
        now == st.Destroy(i).(fired := st.fired + multiset{gen})
      else
        now == st.With(i, Settled(was, content, o, end + cfg.idleTimeout))
  {
    var s := st.sessions[i];
    var active := s.(history := s.history + [Message(User, content)], state := Active,
                     idleDeadline := start + cfg.idleTimeout, genCancel := Some(gen));
    var registered := st.PreparePrompt(cfg, i, content, start).0.SetGenCancel(i, gen).0;
    assert registered == st.With(i, active);
    if !o.Disconnected? {
      AnswerStored(s, active, content, o, end + cfg.idleTimeout);
    } else {
      assert registered.sessions - {i} == st.sessions - {i};
    }
  }

  lemma AnswerStored(s: SessionView, active: SessionView, content: string, o: Outcome, deadline: int)
    requires active == s.(history := s.history + [Message(User, content)], state := Active,
                          idleDeadline := active.idleDeadline, genCancel := active.genCancel)
    ensures o.Reply().Some? ==> active.Finished(o.Reply().value, deadline) == Settled(s, content, o, deadline)
    ensures o.Reply().None? ==> active.Failed(deadline) == Settled(s, content, o, deadline)
  {
    assert active.history[..|s.history|] == s.history;
    assert s.history + [] == s.history;
    if o.Reply().Some? && o.Reply().value == "" {
      assert [Message(User, content)] + Answer("") == [Message(User, content)];
    } else if o.Reply().Some? {
      AppendIsAssociative(s.history, [Message(User, content)], Answer(o.Reply().value));
    }
  }

  /** Handles one prompt for session `i`, writing the response to `out`. The provider
      calls back with `calls` and returns `c`, as its contract with the writing
      callback allows; `raw` is the content sent, `start` and `end` are clock readings. */
  method HandlePrompt(g: Manager, out: Writer, gen: Gen, i: string, raw: string, canFlush: bool,
                      calls: seq<string>, c: Completion, ctx: Contexts, start: int, end: int)
    returns (r: Response)
    requires g.Valid() && out !in g.repr && Sent(out, [])
    requires Honest(calls, Writes(out.room), c)
    modifies g, g.repr, out
    ensures g.Valid()
    ensures var was, content := old(g.Abs()), Trim(raw);
      if Refusal(was, i, content).Some? then
        Some(r) == Refusal(was, i, content) && Sent(out, []) && g.Abs() == was
      else if !canFlush then
        r == Unflushable && Sent(out, [])
        && g.Abs() == was.PreparePrompt(g.cfg, i, content, start).0.FailPrompt(g.cfg, i, end)
      else
        && r == Streamed(RequestFor(was.sessions[i], content), Choose(c, ctx))
        && Sent(out, Tokens(calls) + Choose(c, ctx).Terminal())
        && g.Abs() == AfterPrompt(g.cfg, was, gen, i, content, Choose(c, ctx), start, end)
    ensures RefusedAs(old(g.Abs()), i, Trim(raw), r) || Ready(old(g.Abs()), i, Trim(raw))
    ensures Ready(old(g.Abs()), i, Trim(raw)) && canFlush ==>
      && r.Streamed? && TerminalFits(r.outcome.Terminal(), c, ctx) && Sent(out, Tokens(calls) + r.outcome.Terminal())
      && ExchangedAs(old(g.Abs()).sessions[i], g.Abs().sessions, i, Trim(raw), c, ctx)
  {
    var content := Trim(raw);
    RefusalIsRefusedAs(g.Abs(), i, content);
    if Ready(g.Abs(), i, content) {
      PromptExchanges(g.cfg, g.Abs(), gen, i, content, c, ctx, start, end);
    }
    ChoiceFits(c, ctx);
    var prepared := Prepare(g, i, content, start);
    if prepared.Err? {
      return prepared.error;
    }
    r := Respond(g, out, gen, i, content, prepared.value, canFlush, calls, c, ctx, start, end, old(g.Abs()));
  }

  /** The response to a prompt that was admitted in state `was`. */
  method Respond(g: Manager, out: Writer, gen: Gen, i: string, content: string, history: array<Message>, canFlush: bool,
                 calls: seq<string>, c: Completion, ctx: Contexts, start: int, end: int, ghost was: Store)
    returns (r: Response)
    requires g.Valid() && out !in g.repr && Sent(out, []) && history in g.copies
    requires Refusal(was, i, content).None?
    requires (g.Abs(), Ok(history[..])) == was.PreparePrompt(g.cfg, i, content, start)
    modifies g, g.repr, out
    ensures g.Valid()
    ensures !canFlush ==> r == Unflushable && Sent(out, []) && g.Abs() == old(g.Abs()).FailPrompt(g.cfg, i, end)
    ensures canFlush ==>
      && r == Streamed(RequestFor(was.sessions[i], content), Choose(c, ctx))
      && Sent(out, Tokens(calls) + Choose(c, ctx).Terminal())
      && g.Abs() == AfterPrompt(g.cfg, was, gen, i, content, Choose(c, ctx), start, end)
  {
    if !canFlush {
      g.FailPrompt(i, end);
      return Unflushable;
    }
    BranchIsSettled(g.cfg, g.Abs().SetGenCancel(i, gen).0, i, c, ctx, end);
    Admitted(g.cfg, was, i, content, start);
    var request, o := StreamPrompt(g, out, gen, i, history, calls, c, ctx, end);
    return Streamed(request, o);
  }

  /** What the provider is asked: the approved settings, and the history with the
      prompt at its end. */
  function RequestFor(s: SessionView, content: string): CompletionRequest {
    CompletionRequest(s.settings, s.history + [Message(User, content)])
  }

  /** A reply is stored only if the connection has taken all its deltas, and it is
      their concatenation. */
  lemma ReplyWasWritten(room: nat, calls: seq<string>, c: Completion, ctx: Contexts)
    requires Honest(calls, Writes(room), c) && Choose(c, ctx).Reply().Some?
    ensures Choose(c, ctx).Reply().value == Concat(calls)
    ensures Take(Stream(Wires(Tokens(calls))), room) == Stream(Wires(Tokens(calls)))
  { }

  /** The status and code for an error of PreparePrompt in a session with this status. */
  function Reject(e: Error, status: Result<State, Error>): Response {
    if e == NotFound then Rejected(404, "not_found")
    else if status == Ok(Waiting) then Rejected(403, "pairing_pending")
    else Rejected(403, "not_approved")
  }

  function StatusIn(st: Store, i: string): Result<State, Error> {
    if i in st.sessions then Ok(st.sessions[i].state) else Err(NotFound)
  }

  lemma RefusedByPrepare(cfg: Config, st: Store, i: string, content: string, start: int)
    requires content != ""
    ensures var (next, r) := st.PreparePrompt(cfg, i, content, start);
      if r.Ok? then Refusal(st, i, content) == None
      else next == st && Refusal(st, i, content) == Some(Reject(r.error, StatusIn(st, i)))
  { }

  /** A prompt that is not refused is prepared, and this is what it asks. */
  lemma Admitted(cfg: Config, st: Store, i: string, content: string, start: int)
    requires Refusal(st, i, content).None?
    ensures var (next, r) := st.PreparePrompt(cfg, i, content, start);
      && i in st.sessions && i in next.sessions
      && r == Ok(RequestFor(st.sessions[i], content).messages)
      && next.sessions[i].settings == st.sessions[i].settings
  { }

  /** The first half of handlePrompt. */
  method Prepare(g: Manager, i: string, content: string, start: int) returns (r: Result<array<Message>, Response>)
    requires g.Valid()
    modifies g, g.repr
    ensures g.Valid() && g.OnlyNew()
    ensures r.Ok? <==> Refusal(old(g.Abs()), i, content).None?
    ensures r.Err? ==> Refusal(old(g.Abs()), i, content) == Some(r.error) && g.Abs() == old(g.Abs())
    ensures r.Ok? ==> g.Abs() == old(g.Abs()).PreparePrompt(g.cfg, i, content, start).0
    ensures r.Ok? ==> Ok(r.value[..]) == old(g.Abs()).PreparePrompt(g.cfg, i, content, start).1
    ensures r.Ok? ==> r.value in g.copies
  {
    if content == "" {
      return Err(Rejected(400, "bad_request"));
    }
    RefusedByPrepare(g.cfg, g.Abs(), i, content, start);
    ghost var e;
    r, e := TryPrepare(g, i, content, start);
  }

  /** `e` is the error of PreparePrompt, if it has one. */
  method TryPrepare(g: Manager, i: string, content: string, start: int)
    returns (r: Result<array<Message>, Response>, ghost e: Error)
    requires g.Valid()
    modifies g, g.repr
    ensures g.Valid() && g.OnlyNew()
    ensures g.Abs() == old(g.Abs()).PreparePrompt(g.cfg, i, content, start).0
    ensures r.Ok? ==> r.value in g.copies && old(g.Abs()).PreparePrompt(g.cfg, i, content, start).1 == Ok(r.value[..])
    ensures r.Err? ==>
      old(g.Abs()).PreparePrompt(g.cfg, i, content, start).1 == Err(e) && r.error == Reject(e, StatusIn(g.Abs(), i))
  {
    var prepared := g.PreparePrompt(i, content, start);
    e := NotFound;
    if prepared.Ok? {
      return Ok(prepared.value), e;
    }
    e := prepared.error;
    label Tried:
    var status := g.Status(i);
    g.Untouched@Tried();
    r := Err(Reject(prepared.error, status));
  }

  /** All that has been written to `out` are the events of `frames`. */
  ghost predicate Sent(out: Writer, frames: seq<Payload>)
    reads out
  {
    out.Valid() && out.attempted == Stream(Wires(frames))
  }

  method StreamPrompt(g: Manager, out: Writer, gen: Gen, i: string, history: array<Message>,
                      calls: seq<string>, c: Completion, ctx: Contexts, end: int)
    returns (request: CompletionRequest, o: Outcome)
    requires g.Valid() && Sent(out, []) && out !in g.repr && history in g.copies
    modifies g, g.repr, out
    ensures g.Valid()
    ensures request.messages == old(history[..])
    ensures request.settings == if i in old(g.Abs()).sessions then old(g.Abs()).sessions[i].settings else ZERO
    ensures o == Choose(c, ctx)
    ensures Sent(out, Tokens(calls) + o.Terminal()) && TerminalFits(o.Terminal(), c, ctx)
    ensures g.Abs() == Branch(g.cfg, old(g.Abs()).SetGenCancel(i, gen).0, i, c, ctx, end)
    ensures i in old(g.Abs()).sessions ==>
      SettledAs(old(g.Abs()).sessions[i], g.Abs().sessions, i, c, ctx, end + g.cfg.idleTimeout)
  {
    ChoiceFits(c, ctx);
    StreamSettles(g.cfg, g.Abs(), gen, i, c, ctx, end);
    ghost var registered := g.Abs().SetGenCancel(i, gen).0;
    request := Generate(g, out, gen, i, history, calls, registered);
    o := End(g, out, i, calls, c, ctx, end, registered);
  }

  lemma StreamSettles(cfg: Config, st: Store, gen: Gen, i: string, c: Completion, ctx: Contexts, end: int)
    ensures i in st.sessions ==>
      SettledAs(st.sessions[i], Branch(cfg, st.SetGenCancel(i, gen).0, i, c, ctx, end).sessions, i, c, ctx,
                end + cfg.idleTimeout)
  {
    if i in st.sessions {
      BranchSettles(cfg, st.SetGenCancel(i, gen).0, i, c, ctx, end);
    }
  }

  /** Up to the return of the provider. */
  method Generate(g: Manager, out: Writer, gen: Gen, i: string, history: array<Message>, calls: seq<string>,
                  ghost registered: Store)
    returns (request: CompletionRequest)
    requires g.Valid() && Sent(out, []) && out !in g.repr && history in g.copies
    requires registered == g.Abs().SetGenCancel(i, gen).0
    modifies g, g.repr, out
    ensures g.Valid() && g.Abs() == registered && g.repr == old(g.repr)
    ensures request.messages == old(history[..])
    ensures request.settings == if i in old(g.Abs()).sessions then old(g.Abs()).sessions[i].settings else ZERO
    ensures Sent(out, Tokens(calls))
  {
    request := Ask(g, gen, i, history, registered);
    label Asked:
    WriteTokens(out, calls);
    g.Untouched@Asked();
  }

  /** From the return of the provider on. */
  method End(g: Manager, out: Writer, i: string, calls: seq<string>, c: Completion, ctx: Contexts, end: int,
             ghost registered: Store)
    returns (o: Outcome)
    requires g.Valid() && g.Abs() == registered && Sent(out, Tokens(calls)) && out !in g.repr
    modifies g, g.repr, out
    ensures g.Valid()
    ensures o == Choose(c, ctx) && g.Abs() == Branch(g.cfg, registered, i, c, ctx, end)
    ensures Sent(out, Tokens(calls) + o.Terminal())
  {
    o := Conclude(g, i, c, ctx, end, registered);
    label Concluded:
    WriteTerminal(out, Tokens(calls), o);
    g.Untouched@Concluded();
  }

  /** Registers the generation and puts the provider's request together. */
  method Ask(g: Manager, gen: Gen, i: string, history: array<Message>, ghost registered: Store)
    returns (request: CompletionRequest)
    requires g.Valid() && history in g.copies && registered == g.Abs().SetGenCancel(i, gen).0
    modifies g, g.repr
    ensures g.Valid() && g.Abs() == registered && g.repr == old(g.repr)
    ensures request.messages == old(history[..])
    ensures request.settings == if i in old(g.Abs()).sessions then old(g.Abs()).sessions[i].settings else ZERO
  {
    var err := g.SetGenCancel(i, gen);
    label Set:
    var settings := g.SessionSettings(i);
    g.Untouched@Set();
    request := CompletionRequest(if settings.Ok? then settings.value else ZERO, history[..]);
  }

  /** Writes the terminal event of `o`, if it has one, after the payloads `sent`; an
      error is ignored. */
  method WriteTerminal(out: Writer, ghost sent: seq<Payload>, o: Outcome)
    requires Sent(out, sent)
    modifies out
    ensures Sent(out, sent + o.Terminal())
  {
    var terminal := o.Terminal();
    if terminal == [] {
      assert sent + terminal == sent;
      return;
    }
    var ok := WriteEvent(out, sent, terminal[0]);
    assert terminal == [terminal[0]];
  }

  /** The manager calls of the branches. */
  function Branch(cfg: Config, st: Store, i: string, c: Completion, ctx: Contexts, end: int): Store {
    if ctx.gone then st.Destroy(i)
    else if c.Failed? || ctx.err == DeadlineExceeded then st.FailPrompt(cfg, i, end)
    else st.FinishPrompt(cfg, i, c.text, end)
  }

  lemma BranchIsSettled(cfg: Config, st: Store, i: string, c: Completion, ctx: Contexts, end: int)
    ensures Branch(cfg, st, i, c, ctx, end) == AfterStream(cfg, st, i, Choose(c, ctx), end)
  { }

  /** The switch, and the manager call of the branch taken. */
  method Conclude(g: Manager, i: string, c: Completion, ctx: Contexts, end: int, ghost registered: Store)
    returns (o: Outcome)
    requires g.Valid() && g.Abs() == registered
    modifies g, g.repr
    ensures g.Valid() && g.OnlyNew()
    ensures o == Choose(c, ctx) && g.Abs() == Branch(g.cfg, registered, i, c, ctx, end)
    ensures i in registered.sessions ==>
      SettledAs(registered.sessions[i], g.Abs().sessions, i, c, ctx, end + g.cfg.idleTimeout)
  {
    if i in registered.sessions {
      BranchSettles(g.cfg, registered, i, c, ctx, end);
    }
    if ctx.gone {
      g.Destroy(i);
      return Disconnected;
    }
    if c.Failed? {
      g.FailPrompt(i, end);
      return UpstreamError(c.message);
    }
    if ctx.err == DeadlineExceeded {
      g.FailPrompt(i, end);
      return TimedOut;
    }
    g.FinishPrompt(i, c.text, end);
    if ctx.err == Canceled {
      return Outcome.Cancelled(c.text);
    }
    return Finished(c.text, c.finishReason);
  }

  /** The calls of the callback, which returns nil for the deltas it says it does. */
  method WriteTokens(out: Writer, calls: seq<string>)
    requires Sent(out, [])
    modifies out
    ensures Sent(out, Tokens(calls))
  {
    for k := 0 to |calls|
      invariant Sent(out, Tokens(calls[..k]))
    {
      assert calls[..k + 1] == calls[..k] + [calls[k]];
      var ok := OnDelta(out, calls[..k], calls[k]);
    }
    assert calls[..|calls|] == calls;
  }

  method OnDelta(out: Writer, ghost before: seq<string>, delta: string) returns (ok: bool)
    requires Sent(out, Tokens(before))
    modifies out
    ensures Sent(out, Tokens(before + [delta]))
    ensures ok <==> Writes(out.room)(before + [delta])
  {
    assert Tokens(before + [delta]) == Tokens(before) + [Token(delta)];
    ok := WriteEvent(out, Tokens(before), Token(delta));
  }

  /** Writes `p` after the payloads `sent`. */
  method WriteEvent(out: Writer, ghost sent: seq<Payload>, p: Payload) returns (ok: bool)
    requires Sent(out, sent)
    modifies out
    ensures Sent(out, sent + [p])
    ensures ok <==> |out.attempted| <= out.room
  {
    ok := out.WriteSse(Wire(p));
    assert Wires(sent + [p]) == Wires(sent) + [Wire(p)];
    StreamPush(Wires(sent), Wire(p));
  }

  lemma {:induction false} StreamPush(events: seq<Event>, e: Event)
    ensures Stream(events + [e]) == Stream(events) + Frame(e)
  {
    if events == [] {
      assert Stream([e]) == Frame(e) + Stream([]);
    } else {
      StreamPush(events[1..], e);
      assert (events + [e])[1..] == events[1..] + [e];
      AppendIsAssociative(Frame(events[0]), Stream(events[1..]), Frame(e));
    }
  }
}
