/** Runs of the gateway that show what can happen. */
module Reach {
  import opened Base
  import opened Settings
  import opened Store
  import opened Protocol
  import opened World
  import opened Invariant
  import opened Runs

  /** Some run leads to `w`. */
  ghost predicate Reachable(cfg: Config, w: World) {
    exists ws, acts :: IsRun(cfg, ws, acts) && ws[|acts|] == w
  }

  lemma ReachStart(cfg: Config)
    ensures Reachable(cfg, START)
  {
    var ws, acts: seq<Action> := [START], [];
    assert IsRun(cfg, ws, acts) && ws[|acts|] == START;
  }

  lemma ReachableIsSound(cfg: Config, w: World)
    requires Reachable(cfg, w)
    ensures w.store.Sound()
  {
    var ws, acts :| IsRun(cfg, ws, acts) && ws[|acts|] == w;
    RunsKeepInv(cfg, ws, acts, |acts|);
  }

  lemma ReachNext(cfg: Config, w: World, a: Action) returns (v: World)
    requires Reachable(cfg, w) && Enabled(w, a)
    ensures w.store.Sound() && v == Exec(cfg, w, a) && Reachable(cfg, v)
  {
    ReachableIsSound(cfg, w);
    v := Exec(cfg, w, a);
    var ws, acts :| IsRun(cfg, ws, acts) && ws[|acts|] == w;
    LongerRun(cfg, ws, acts, a, v);
    assert (ws + [v])[|acts + [a]|] == v;
  }

  lemma LongerRun(cfg: Config, ws: seq<World>, acts: seq<Action>, a: Action, v: World)
    requires IsRun(cfg, ws, acts) && Follows(cfg, ws[|acts|], a, v)
    ensures IsRun(cfg, ws + [v], acts + [a])
  {
    var longer, all := ws + [v], acts + [a];
    forall n | 0 <= n < |all| ensures Follows(cfg, longer[n], all[n], longer[n + 1]) {
      if n < |acts| {
        assert Follows(cfg, ws[n], acts[n], ws[n + 1]);
      }
    }
  }

  // ---- A done event for an exchange that no session holds ----

  lemma ReachCreated(cfg: Config, d: Draw) returns (w: World)
    requires cfg.maxSessions > 0
    ensures Reachable(cfg, w) && w.handlers == map[] && w.store.sessions.Keys == {d.id}
    ensures var s := w.store.sessions[d.id]; s.state == Waiting && s.pairToken == d.token && s.history == []
    ensures w.store.sessions[d.id].pairExpiry == cfg.pairTimeout && w.store.byCode == map[d.code := d.id]
  {
    ReachStart(cfg);
    w := ReachNext(cfg, START, Create(Some(d), 0));
  }

  lemma ReachApproved(cfg: Config, d: Draw, token: string) returns (w: World)
    requires cfg.maxSessions > 0 && token != ""
    ensures Reachable(cfg, w) && w.handlers == map[]
    ensures d.id in w.store.sessions && w.store.sessions[d.id].state == Approved && w.store.sessions[d.id].history == []
    ensures w.store.sessions[d.id].controlToken == token
  {
    var created := ReachCreated(cfg, d);
    w := ReachNext(cfg, created, Action.ApproveByCode(d.code, DEFAULT, Some(token), 0 - Late(cfg)));
  }

  /** A time early enough for any approval. */
  function Late(cfg: Config): nat { if cfg.pairTimeout < 0 then -cfg.pairTimeout else 0 }

  /** A handler for session `id` in phase `p`, with nothing sent and its context open. */
  predicate NothingSent(h: Handler, id: string, p: Phase) {
    h.phase == p && h.id == id && h.deltas == [] && h.frames == [] && !h.timedOut && !h.gone
  }

  lemma ReachPrepared(cfg: Config, d: Draw, token: string, content: string) returns (w: World)
    requires cfg.maxSessions > 0 && token != "" && content != ""
    ensures Reachable(cfg, w) && 0 in w.handlers && d.id in w.store.sessions && 0 !in w.store.fired
    ensures NothingSent(w.handlers[0], d.id, Prepared) && w.store.sessions[d.id].history == [Message(User, content)]
  {
    var approved := ReachApproved(cfg, d, token);
    FreshHandlerNotFired(cfg, approved);
    w := ReachNext(cfg, approved, Prepare(0, d.id, content, 0));
  }

  /** A handler inside its provider call, for a live session. */
  lemma ReachStreaming(cfg: Config, d: Draw, token: string, content: string) returns (w: World)
    requires cfg.maxSessions > 0 && token != "" && content != ""
    ensures Reachable(cfg, w) && 0 in w.handlers && d.id in w.store.sessions && 0 !in w.store.fired
    ensures NothingSent(w.handlers[0], d.id, Streaming)
    ensures var s := w.store.sessions[d.id]; s.genCancel == Some(0) && s.history == [Message(User, content)]
  {
    var prepared := ReachPrepared(cfg, d, token, content);
    var registered := ReachNext(cfg, prepared, Register(0));
    w := ReachNext(cfg, registered, ReadSettings(0));
  }

  lemma FreshHandlerNotFired(cfg: Config, w: World)
    requires Reachable(cfg, w)
    ensures forall g | g !in w.handlers :: g !in w.store.fired
  {
    var ws, acts :| IsRun(cfg, ws, acts) && ws[|acts|] == w;
    RunsKeepInv(cfg, ws, acts, |acts|);
    assert FiredOk(w);
  }

  /** A handler that has passed the switch. */
  lemma ReachDecided(cfg: Config, d: Draw, token: string, content: string) returns (w: World)
    requires cfg.maxSessions > 0 && token != "" && content != ""
    ensures Reachable(cfg, w) && 0 in w.handlers && d.id in w.store.sessions
    ensures NothingSent(w.handlers[0], d.id, Decided(Finished("", "stop")))
  {
    var streaming := ReachStreaming(cfg, d, token, content);
    var returned := ReachNext(cfg, streaming, Return(0, Completed("", "stop")));
    w := ReachNext(cfg, returned, Decide(0, Finished("", "stop")));
  }

  /** The switch is passed, then the session is closed: the client still gets its
      done event, and no session holds the prompt. */
  lemma DoneCanComeTooLate(cfg: Config, d: Draw, token: string, content: string) returns (w: World)
    requires cfg.maxSessions > 0 && token != "" && content != ""
    ensures Reachable(cfg, w) && 0 in w.handlers
    ensures w.handlers[0].phase.Ended? && w.handlers[0].frames == [Done("stop")]
    ensures w.handlers[0].id == d.id && d.id !in w.store.sessions
  {
    var decided := ReachDecided(cfg, d, token, content);
    var closed := ReachNext(cfg, decided, Close(d.id));
    var applied := ReachNext(cfg, closed, Apply(0, 0));
    w := ReachNext(cfg, applied, Emit(0));
  }

  // ---- A cancelled prompt of which nothing is kept ----

  /** A prompt cancelled while the provider waits for a response, so that its call
      fails: the cancel has come in time and the client is still there, but it gets
      an error, and the prompt is forgotten. */
  lemma CancelCanForget(cfg: Config, d: Draw, token: string, content: string, problem: string) returns (w: World)
    requires cfg.maxSessions > 0 && token != "" && content != ""
    ensures Reachable(cfg, w) && 0 in w.handlers && 0 in w.store.fired && d.id in w.store.sessions
    ensures var h := w.handlers[0];
      h.phase.Ended? && h.frames == [Payload.Error("upstream_error", problem)] && !h.timedOut && !h.gone
    ensures w.store.sessions[d.id].history == []
  {
    var streaming := ReachStreaming(cfg, d, token, content);
    var cancelled := ReachNext(cfg, streaming, Action.Cancel(d.id));
    var failed := ReachNext(cfg, cancelled, Return(0, Failed(problem)));
    w := FailAndEmit(cfg, failed, d.id, content, problem);
  }

  lemma FailAndEmit(cfg: Config, failed: World, id: string, content: string, problem: string) returns (w: World)
    requires Reachable(cfg, failed) && 0 in failed.handlers && 0 in failed.store.fired && id in failed.store.sessions
    requires failed.store.sessions[id].history == [Message(User, content)]
    requires NothingSent(failed.handlers[0], id, Returned(Failed(problem)))
    ensures Reachable(cfg, w) && 0 in w.handlers && 0 in w.store.fired && id in w.store.sessions
    ensures var h := w.handlers[0];
      h.phase.Ended? && h.frames == [Payload.Error("upstream_error", problem)] && !h.timedOut && !h.gone
    ensures w.store.sessions[id].history == []
  {
    var decided := ReachNext(cfg, failed, Decide(0, UpstreamError(problem)));
    var applied := ReachNext(cfg, decided, Apply(0, 0));
    w := ReachNext(cfg, applied, Emit(0));
  }

  // ---- Every other way out ----

  /** Approval by the token of the QR code, then an end request with the control token. */
  lemma ApprovedAndEnded(cfg: Config, d: Draw, token: string) returns (approved: World, ended: World)
    requires cfg.maxSessions > 0 && token != ""
    ensures Reachable(cfg, approved) && d.id in approved.store.sessions
    ensures approved.store.sessions[d.id].state == Approved
    ensures Reachable(cfg, ended) && d.id !in ended.store.sessions
  {
    var created := ReachCreated(cfg, d);
    assert d.id in created.store.HoldersOf(d.token);
    var request := Action.ApproveByToken(d.token, Some(d.id), DEFAULT, Some(token), 0 - Late(cfg));
    approved := ReachNext(cfg, created, request);
    ended := ReachNext(cfg, approved, End(d.id, token));
  }

  /** A session nobody approves is swept. */
  lemma WaitingIsSwept(cfg: Config, d: Draw) returns (w: World)
    requires cfg.maxSessions > 0
    ensures Reachable(cfg, w) && d.id in w.used && d.id !in w.store.sessions
  {
    var created := ReachCreated(cfg, d);
    UsedWhenLive(cfg, created, d.id);
    w := ReachNext(cfg, created, Sweep(cfg.pairTimeout + 1));
    created.store.SweepSurvivors(cfg.pairTimeout + 1);
  }

  lemma UsedWhenLive(cfg: Config, w: World, id: string)
    requires Reachable(cfg, w) && id in w.store.sessions
    ensures id in w.used
  {
    var ws, acts :| IsRun(cfg, ws, acts) && ws[|acts|] == w;
    RunsKeepInv(cfg, ws, acts, |acts|);
  }

  /** A client that leaves in the middle of its prompt: nothing more is written, and its
      session is destroyed and its generation cancelled. */
  lemma DisconnectDestroys(cfg: Config, d: Draw, token: string, content: string, c: Completion) returns (w: World)
    requires cfg.maxSessions > 0 && token != "" && content != "" && (c.Completed? ==> c.text == "")
    ensures Reachable(cfg, w) && 0 in w.handlers && w.handlers[0].phase.Ended? && w.handlers[0].frames == []
    ensures d.id !in w.store.sessions && 0 in w.store.fired
  {
    var streaming := ReachStreaming(cfg, d, token, content);
    var lost := ReachNext(cfg, streaming, LoseClient(0));
    var returned := ReachNext(cfg, lost, Return(0, c));
    w := ReachEnd(cfg, returned, d.id, c, Disconnected);
  }

  /** A generation that times out: an error event, and the prompt is forgotten. */
  lemma TimeoutForgets(cfg: Config, d: Draw, token: string, content: string) returns (w: World)
    requires cfg.maxSessions > 0 && token != "" && content != ""
    ensures Reachable(cfg, w) && 0 in w.handlers && w.handlers[0].phase.Ended?
    ensures w.handlers[0].frames == [Payload.Error("generation_timeout", "generation timed out")]
    ensures d.id in w.store.sessions && w.store.sessions[d.id].history == []
  {
    var c := Completed("", "cancelled");
    var streaming := ReachStreaming(cfg, d, token, content);
    var late := ReachNext(cfg, streaming, TimeOut(0));
    var returned := ReachNext(cfg, late, Return(0, c));
    var history := returned.store.sessions[d.id].history;
    assert history == [Message(User, content)];
    w := ReachEnd(cfg, returned, d.id, c, TimedOut);
  }

  lemma ReachEnd(cfg: Config, returned: World, id: string, c: Completion, o: Outcome) returns (w: World)
    requires Reachable(cfg, returned) && 0 in returned.handlers && CanDecide(returned, 0, o) && o.Reply().None?
    requires var h := returned.handlers[0]; h.phase == Returned(c) && h.id == id && h.frames == []
    requires id in returned.store.sessions && returned.store.sessions[id].genCancel == Some(0)
    requires |returned.store.sessions[id].history| == 1 && returned.store.sessions[id].history[0].role == User
    ensures Reachable(cfg, w) && 0 in w.handlers && w.handlers[0].phase.Ended? && w.handlers[0].frames == o.Terminal()
    ensures if o.Disconnected? then id !in w.store.sessions && 0 in w.store.fired
            else id in w.store.sessions && w.store.sessions[id].history == []
  {
    var decided := ReachNext(cfg, returned, Decide(0, o));
    var applied := ReachNext(cfg, decided, Apply(0, 0));
    w := ReachNext(cfg, applied, Emit(0));
  }

  /** A response that cannot be flushed: nothing is written, and the prompt is forgotten. */
  lemma RefusalForgets(cfg: Config, d: Draw, token: string, content: string) returns (w: World)
    requires cfg.maxSessions > 0 && token != "" && content != ""
    ensures Reachable(cfg, w) && 0 in w.handlers && w.handlers[0].phase.Refused? && w.handlers[0].frames == []
    ensures d.id in w.store.sessions && w.store.sessions[d.id].history == []
    ensures w.store.sessions[d.id].state == Approved
  {
    var prepared := ReachPrepared(cfg, d, token, content);
    w := ReachNext(cfg, prepared, Refuse(0, 0));
  }
}
