/** The inductive invariant of the prompt protocol: it holds at the start and
    every enabled action keeps it. */
module Invariant {
  import opened Base
  import opened Settings
  import opened Store
  import opened Protocol
  import opened World

  /** The messages an answered prompt leaves in the history. */
  function Messages(t: Turn): seq<Message> {
    [Message(User, t.content)] + if t.reply != "" then [Message(Assistant, t.reply)] else []
  }

  /** The history made of answered prompts only, one after the other. */
  function HistoryOf(ts: seq<Turn>): seq<Message> {
    if ts == [] then [] else HistoryOf(ts[..|ts| - 1]) + Messages(ts[|ts| - 1])
  }

  /** Turn `t` of session `id` is the work of the handler it names. */
  predicate Answered(w: World, id: string, t: Turn) {
    && t.gen in w.handlers
    && var h := w.handlers[t.gen];
       && h.id == id && h.content == t.content
       && h.phase.Verdict().Some? && h.phase.Verdict().value.Reply() == Some(t.reply)
  }

  ghost predicate TurnsOk(w: World, id: string)
    requires id in w.turns
  {
    var ts := w.turns[id];
    && (forall i | 0 <= i < |ts| :: Answered(w, id, ts[i]))
    && (forall i, j | 0 <= i < j < |ts| :: ts[i].gen != ts[j].gen)
  }

  /** Handler `gen` is the one generating for session `id`. */
  predicate Owns(w: World, gen: Gen, id: string) {
    gen in w.handlers && w.handlers[gen].id == id && w.handlers[gen].phase.InFlight()
  }

  /** Credentials and settings exist exactly from approval on. */
  predicate CredentialsOk(s: SessionView) {
    && s.state != Destroyed
    && if s.state == Waiting then s.controlToken == "" && s.settings == ZERO && s.history == []
       else s.controlToken != "" && s.settings.Valid()
  }

  ghost predicate SessionOk(cfg: Config, w: World, id: string)
    requires id in w.store.sessions
  {
    var s := w.store.sessions[id];
    && CredentialsOk(s)
    && id in w.touched && s.idleDeadline == w.touched[id] + cfg.idleTimeout
    && id in w.turns && TurnsOk(w, id)
    && (s.state == Active <==> id in w.owner)
    && (if s.state == Active then
          && Owns(w, w.owner[id], id)
          && var h := w.handlers[w.owner[id]];
             && h.before == HistoryOf(w.turns[id])
             && s.history == h.before + [Message(User, h.content)]
             && s.genCancel == if h.phase.Prepared? || w.store.fired[w.owner[id]] > 0 then None else Some(w.owner[id])
        else
          s.history == HistoryOf(w.turns[id]) && s.genCancel == None)
  }

  /** The frames a handler has attempted to write, given its phase. */
  predicate FramesOk(h: Handler) {
    && |h.dropped| <= 1
    && h.frames == Tokens(h.deltas + h.dropped) + (if h.phase.Ended? then h.phase.outcome.Terminal() else [])
    && match h.phase
       case Prepared => h.deltas == h.dropped == []
       case Registered => h.deltas == h.dropped == []
       case Streaming => h.dropped == []
       case Returned(c) => OutcomeFits(h, c)
       case Decided(o) => TextFits(h, o)
       case Applied(o, _) => TextFits(h, o)
       case Ended(o, _) => TextFits(h, o)
       case Refused => h.deltas == h.dropped == []
  }

  predicate OutcomeFits(h: Handler, c: Completion) {
    c.Completed? ==> h.dropped == [] && c.text == Concat(h.deltas)
  }

  /** A reply is exactly the text delivered. */
  predicate TextFits(h: Handler, o: Outcome) {
    o.Reply().Some? ==> h.dropped == [] && o.Reply().value == Concat(h.deltas)
  }

  /** What a handler's invariant says about its live session. */
  ghost predicate LinkOk(w: World, h: Handler, gen: Gen)
    requires h.id in w.store.sessions
  {
    var s := w.store.sessions[h.id];
    && (h.phase.InFlight() ==> h.id in w.owner && w.owner[h.id] == gen)
    && s.state != Waiting
    && !h.phase.TooLate()
    && (!h.phase.Prepared? && !h.phase.Registered? && !h.phase.Refused? ==> h.settings == s.settings)
    && (h.phase.Verdict().Some? && h.phase.Verdict().value.Reply().Some? ==> TookTurn(w, h.id, gen))
  }

  ghost predicate TookTurn(w: World, id: string, gen: Gen) {
    id in w.turns && exists i :: 0 <= i < |w.turns[id]| && w.turns[id][i].gen == gen
  }

  ghost predicate HandlerOk(w: World, gen: Gen)
    requires gen in w.handlers
  {
    var h := w.handlers[gen];
    && h.id in w.used
    && h.request == h.before + [Message(User, h.content)]
    && FramesOk(h)
    && (h.id in w.store.sessions ==> LinkOk(w, h, gen))
  }

  ghost predicate FiredOk(w: World) {
    forall g | g in w.store.fired ::
      w.store.fired[g] == 1 && g in w.handlers && !w.handlers[g].phase.Prepared? && !w.handlers[g].phase.Refused?
  }

  ghost predicate StoreOk(cfg: Config, w: World) {
    && w.store.Sound()
    && |w.store.sessions| <= cfg.maxSessions
    && w.store.sessions.Keys <= w.used
    && w.owner.Keys <= w.store.sessions.Keys
  }

  ghost predicate SessionsOk(cfg: Config, w: World) {
    forall id | id in w.store.sessions :: SessionOk(cfg, w, id)
  }

  ghost predicate HandlersOk(w: World) {
    forall g | g in w.handlers :: HandlerOk(w, g)
  }

  ghost predicate Inv(cfg: Config, w: World) {
    StoreOk(cfg, w) && SessionsOk(cfg, w) && HandlersOk(w) && FiredOk(w)
  }

  lemma InvStart(cfg: Config)
    ensures Inv(cfg, START)
  { }

  // ---- What the invariant depends on ----

  /** Two states of a handler that look alike to the sessions. */
  predicate Alike(h: Handler, k: Handler) {
    && k.id == h.id && k.content == h.content && k.before == h.before
    && k.phase.InFlight() == h.phase.InFlight() && k.phase.Prepared? == h.phase.Prepared?
    && k.phase.Refused? == h.phase.Refused? && k.phase.Verdict() == h.phase.Verdict()
    && k.phase.TooLate() == h.phase.TooLate()
  }

  /** The handlers of session `id` look alike in `w` and `v`. */
  ghost predicate HandlersAlike(w: World, v: World, id: string) {
    forall g | g in w.handlers && w.handlers[g].id == id :: g in v.handlers && Alike(w.handlers[g], v.handlers[g])
  }

  /** Session `id` and what is recorded about it are the same in `w` and `v`. */
  predicate SameSession(w: World, v: World, id: string) {
    && id in w.store.sessions && id in v.store.sessions && w.store.sessions[id] == v.store.sessions[id]
    && SameRecord(w, v, id)
  }

  predicate SameRecord(w: World, v: World, id: string) {
    && id in w.touched && id in v.touched && w.touched[id] == v.touched[id]
    && id in w.turns && id in v.turns && w.turns[id] == v.turns[id]
    && (id in w.owner <==> id in v.owner)
    && (id in w.owner ==> w.owner[id] == v.owner[id] && w.store.fired[w.owner[id]] == v.store.fired[w.owner[id]])
  }

  /** The answers given by the handlers of session `id` stand in `v`. */
  ghost predicate AnswersStand(w: World, v: World, id: string) {
    forall g | g in w.handlers && w.handlers[g].id == id && w.handlers[g].phase.Verdict().Some? ::
      && g in v.handlers && v.handlers[g].id == id && v.handlers[g].content == w.handlers[g].content
      && v.handlers[g].phase.Verdict() == w.handlers[g].phase.Verdict()
  }

  lemma TurnsFrame(w: World, v: World, id: string)
    requires id in w.turns && id in v.turns && w.turns[id] == v.turns[id] && TurnsOk(w, id)
    requires AnswersStand(w, v, id)
    ensures TurnsOk(v, id)
  {
    var ts := w.turns[id];
    forall i | 0 <= i < |ts| ensures Answered(v, id, ts[i]) {
      assert Answered(w, id, ts[i]);
    }
  }

  lemma SessionFrame(cfg: Config, w: World, v: World, id: string)
    requires SameSession(w, v, id) && SessionOk(cfg, w, id) && HandlersAlike(w, v, id)
    ensures SessionOk(cfg, v, id)
  {
    TurnsFrame(w, v, id);
  }

  lemma LinkFrame(w: World, v: World, h: Handler, gen: Gen)
    requires h.id in w.store.sessions && h.id in v.store.sessions && LinkOk(w, h, gen)
    requires v.store.sessions[h.id].settings == w.store.sessions[h.id].settings
    requires v.store.sessions[h.id].state != Waiting
    requires h.phase.InFlight() ==> h.id in v.owner && v.owner[h.id] == gen
    requires h.id in w.turns ==> h.id in v.turns && w.turns[h.id] <= v.turns[h.id]
    ensures LinkOk(v, h, gen)
  {
    if h.phase.Verdict().Some? && h.phase.Verdict().value.Reply().Some? {
      var i :| 0 <= i < |w.turns[h.id]| && w.turns[h.id][i].gen == gen;
      assert v.turns[h.id][i].gen == gen;
    }
  }

  // ---- Steps of one handler that look the same to the sessions ----

  lemma HandlerStepSession(cfg: Config, w: World, gen: Gen, k: Handler, id: string)
    requires gen in w.handlers && Alike(w.handlers[gen], k)
    requires id in w.store.sessions && SessionOk(cfg, w, id)
    ensures SessionOk(cfg, Update(w, gen, k), id)
  {
    SessionFrame(cfg, w, Update(w, gen, k), id);
  }

  lemma HandlerStepSessions(cfg: Config, w: World, gen: Gen, k: Handler)
    requires gen in w.handlers && Alike(w.handlers[gen], k) && SessionsOk(cfg, w)
    ensures SessionsOk(cfg, Update(w, gen, k))
  {
    forall id | id in w.store.sessions ensures SessionOk(cfg, Update(w, gen, k), id) {
      HandlerStepSession(cfg, w, gen, k, id);
    }
  }

  /** The handler that took the step still satisfies its own invariant. */
  predicate SameDuties(w: World, h: Handler, k: Handler) {
    && k.request == h.request && FramesOk(k)
    && (k.id in w.store.sessions && !k.phase.Prepared? && !k.phase.Registered? && !k.phase.Refused?
        ==> k.settings == w.store.sessions[k.id].settings)
  }

  lemma HandlerStepHandlers(w: World, gen: Gen, k: Handler)
    requires gen in w.handlers && Alike(w.handlers[gen], k) && SameDuties(w, w.handlers[gen], k)
    requires HandlersOk(w)
    ensures HandlersOk(Update(w, gen, k))
  {
    var v := Update(w, gen, k);
    forall g | g in v.handlers ensures HandlerOk(v, g) {
      assert HandlerOk(w, g);
      HandlerFrame(w, v, v.handlers[g], g);
    }
  }

  lemma HandlerFrame(w: World, v: World, k: Handler, gen: Gen)
    requires gen in w.handlers && HandlerOk(w, gen) && Alike(w.handlers[gen], k) && SameDuties(w, w.handlers[gen], k)
    requires v == w.(handlers := v.handlers) && gen in v.handlers && v.handlers[gen] == k
    ensures HandlerOk(v, gen)
  { }

  lemma KeepsHandlerStep(cfg: Config, w: World, gen: Gen, k: Handler)
    requires Inv(cfg, w) && gen in w.handlers && Alike(w.handlers[gen], k) && SameDuties(w, w.handlers[gen], k)
    ensures Inv(cfg, Update(w, gen, k))
  {
    HandlerStepSessions(cfg, w, gen, k);
    HandlerStepHandlers(w, gen, k);
  }

  // ---- Steps that change the store ----

  /** Nothing a handler outside `busy` relies on is taken away from a session that stays live. */
  predicate Stable(w: World, v: World, id: string, busy: set<Gen>)
    requires id in v.store.sessions
  {
    && id in w.store.sessions
    && (w.store.sessions[id].state != Waiting ==>
          v.store.sessions[id].settings == w.store.sessions[id].settings && v.store.sessions[id].state != Waiting)
    && (id in w.owner && w.owner[id] !in busy ==> id in v.owner && v.owner[id] == w.owner[id])
    && (id in w.turns ==> id in v.turns && w.turns[id] <= v.turns[id])
  }

  /** The handlers in `busy` have taken a step; the others see a stable store. */
  lemma StepHandlers(w: World, v: World, busy: set<Gen>)
    requires HandlersOk(w) && v.used >= w.used
    requires forall g | g in v.handlers && g in busy :: HandlerOk(v, g)
    requires forall g | g in v.handlers && g !in busy :: g in w.handlers && v.handlers[g] == w.handlers[g]
    requires forall id | id in v.store.sessions && id in w.used :: Stable(w, v, id, busy)
    ensures HandlersOk(v)
  {
    forall g | g in v.handlers ensures HandlerOk(v, g) {
      if g !in busy {
        assert HandlerOk(w, g);
        var h := w.handlers[g];
        if h.id in v.store.sessions {
          assert Stable(w, v, h.id, busy);
          LinkFrame(w, v, h, g);
        }
      }
    }
  }

  lemma CreatedSession(cfg: Config, w: World, v: World, d: Draw, now: int)
    requires d.id !in w.owner && v == DoCreate(cfg, w, Some(d), now) && v != w
    ensures d.id in v.store.sessions && SessionOk(cfg, v, d.id)
  { }

  lemma OtherSession(cfg: Config, w: World, v: World, d: Draw, now: int, id: string)
    requires id in w.store.sessions && SessionOk(cfg, w, id) && id != d.id
    requires v == DoCreate(cfg, w, Some(d), now)
    ensures id in v.store.sessions && SessionOk(cfg, v, id)
  {
    SessionFrame(cfg, w, v, id);
  }

  lemma CreateSessions(cfg: Config, w: World, d: Draw, now: int)
    requires SessionsOk(cfg, w) && d.id !in w.used && w.owner.Keys <= w.store.sessions.Keys <= w.used
    ensures SessionsOk(cfg, DoCreate(cfg, w, Some(d), now))
  {
    var v := DoCreate(cfg, w, Some(d), now);
    if v != w {
      CreatedSession(cfg, w, v, d, now);
      forall id | id in v.store.sessions ensures SessionOk(cfg, v, id) {
        if id != d.id {
          assert SessionOk(cfg, w, id);
          OtherSession(cfg, w, v, d, now, id);
        }
      }
    }
  }

  lemma CreateStore(cfg: Config, w: World, d: Draw, now: int)
    requires StoreOk(cfg, w) && FiredOk(w) && d.id !in w.used
    ensures StoreOk(cfg, DoCreate(cfg, w, Some(d), now)) && FiredOk(DoCreate(cfg, w, Some(d), now))
  {
    var v := DoCreate(cfg, w, Some(d), now);
    assert v == w || v.store.sessions.Keys == w.store.sessions.Keys + {d.id};
  }

  lemma KeepsCreate(cfg: Config, w: World, draw: Option<Draw>, now: int)
    requires Inv(cfg, w) && (draw.Some? ==> draw.value.id !in w.used)
    ensures Inv(cfg, DoCreate(cfg, w, draw, now))
  {
    var v := DoCreate(cfg, w, draw, now);
    if v != w {
      CreateSessions(cfg, w, draw.value, now);
      CreateStore(cfg, w, draw.value, now);
      StepHandlers(w, v, {});
    }
  }

  /** A step about session `id` and the handlers in `busy`: the rest of the world is the same. */
  ghost predicate Local(w: World, v: World, id: string, busy: set<Gen>) {
    && SameExcept(w.store.sessions, v.store.sessions, {id})
    && SameExcept(w.touched, v.touched, {id})
    && SameExcept(w.turns, v.turns, {id})
    && SameExcept(w.owner, v.owner, {id})
    && SameExcept(w.handlers, v.handlers, busy)
    && w.handlers.Keys <= v.handlers.Keys
    && v.used == w.used
    && forall g: Gen :: v.store.fired[g] == w.store.fired[g] || (id in w.owner && g == w.owner[id])
  }

  lemma LocalSession(cfg: Config, w: World, v: World, id: string, busy: set<Gen>, j: string)
    requires Local(w, v, id, busy) && (forall g | g in w.handlers && g in busy :: w.handlers[g].id == id)
    requires j != id && j in w.store.sessions && SessionOk(cfg, w, j)
    requires id in w.owner ==> Owns(w, w.owner[id], id)
    ensures j in v.store.sessions && SessionOk(cfg, v, j)
  {
    SessionFrame(cfg, w, v, j);
  }

  lemma LocalHandler(w: World, v: World, id: string, busy: set<Gen>, g: Gen)
    requires Local(w, v, id, busy) && g !in busy && g in w.handlers && HandlerOk(w, g)
    requires id in v.store.sessions ==> Stable(w, v, id, busy)
    ensures g in v.handlers && HandlerOk(v, g)
  {
    var h := w.handlers[g];
    if h.id in v.store.sessions {
      LinkFrame(w, v, h, g);
    }
  }

  lemma LocalKeeps(cfg: Config, w: World, v: World, id: string, busy: set<Gen>)
    requires Inv(cfg, w) && StoreOk(cfg, v) && FiredOk(v)
    requires Local(w, v, id, busy) && (forall g | g in w.handlers && g in busy :: w.handlers[g].id == id)
    requires id in v.store.sessions ==> SessionOk(cfg, v, id) && Stable(w, v, id, busy)
    requires forall g | g in v.handlers && g in busy :: HandlerOk(v, g)
    ensures Inv(cfg, v)
  {
    assert id in w.owner ==> Owns(w, w.owner[id], id) by {
      if id in w.owner { assert SessionOk(cfg, w, id); }
    }
    forall j | j in v.store.sessions ensures SessionOk(cfg, v, j) {
      if j != id {
        assert SessionOk(cfg, w, j);
        LocalSession(cfg, w, v, id, busy, j);
      }
    }
    forall g | g in v.handlers ensures HandlerOk(v, g) {
      if g !in busy {
        assert HandlerOk(w, g);
        LocalHandler(w, v, id, busy, g);
      }
    }
  }

  /** A complete step of handler `gen` about session `id`. */
  ghost predicate Moved(cfg: Config, w: World, v: World, id: string, gen: Gen) {
    && StoreOk(cfg, v) && FiredOk(v) && Local(w, v, id, {gen})
    && gen in v.handlers && HandlerOk(v, gen) && v.handlers[gen].id == id
    && (gen in w.handlers ==> w.handlers[gen].id == id)
    && (id in v.store.sessions ==> SessionOk(cfg, v, id) && Stable(w, v, id, {gen}))
  }

  lemma KeepsMove(cfg: Config, w: World, v: World, id: string, gen: Gen)
    requires Inv(cfg, w) && Moved(cfg, w, v, id, gen)
    ensures Inv(cfg, v)
  {
    LocalKeeps(cfg, w, v, id, {gen});
  }

  // ---- One action at a time ----

  lemma ApproveSession(cfg: Config, w: World, v: World, id: string, settings: GenerationSettings,
                       token: Option<string>, now: int)
    requires id in w.store.sessions && SessionOk(cfg, w, id) && (token.Some? ==> token.value != "")
    requires v == w.(store := w.store.Approve(id, settings, token, now).0)
    ensures SessionOk(cfg, v, id) && Stable(w, v, id, {}) && Local(w, v, id, {})
  {
    TurnsFrame(w, v, id);
  }

  lemma ApproveStore(cfg: Config, w: World, v: World, id: string, settings: GenerationSettings,
                     token: Option<string>, now: int)
    requires StoreOk(cfg, w) && FiredOk(w) && id in w.store.sessions
    requires v == w.(store := w.store.Approve(id, settings, token, now).0)
    ensures StoreOk(cfg, v) && FiredOk(v)
  {
    assert v.store.sessions.Keys == w.store.sessions.Keys;
  }

  lemma KeepsApprove(cfg: Config, w: World, id: string, settings: GenerationSettings, token: Option<string>, now: int)
    requires Inv(cfg, w) && id in w.store.sessions && (token.Some? ==> token.value != "")
    ensures Inv(cfg, w.(store := w.store.Approve(id, settings, token, now).0))
  {
    var v := w.(store := w.store.Approve(id, settings, token, now).0);
    assert SessionOk(cfg, w, id);
    ApproveSession(cfg, w, v, id, settings, token, now);
    ApproveStore(cfg, w, v, id, settings, token, now);
    LocalKeeps(cfg, w, v, id, {});
  }

  lemma CancelSession(cfg: Config, w: World, v: World, id: string)
    requires id in w.store.sessions && SessionOk(cfg, w, id)
    requires v == w.(store := w.store.CancelGeneration(id).0)
    ensures SessionOk(cfg, v, id) && Stable(w, v, id, {}) && Local(w, v, id, {})
  {
    TurnsFrame(w, v, id);
  }

  lemma CancelStore(cfg: Config, w: World, v: World, id: string)
    requires StoreOk(cfg, w) && FiredOk(w) && id in w.store.sessions && SessionOk(cfg, w, id)
    requires v == w.(store := w.store.CancelGeneration(id).0)
    ensures StoreOk(cfg, v) && FiredOk(v)
  {
    assert v.store.sessions.Keys == w.store.sessions.Keys;
  }

  lemma KeepsCancel(cfg: Config, w: World, id: string)
    requires Inv(cfg, w)
    ensures Inv(cfg, w.(store := w.store.CancelGeneration(id).0))
  {
    var v := w.(store := w.store.CancelGeneration(id).0);
    if id in w.store.sessions {
      assert SessionOk(cfg, w, id);
      CancelSession(cfg, w, v, id);
      CancelStore(cfg, w, v, id);
      LocalKeeps(cfg, w, v, id, {});
    }
  }

  lemma DestroyLocal(cfg: Config, w: World, v: World, id: string)
    requires id in w.store.sessions && SessionOk(cfg, w, id) && v == DoDestroy(w, id)
    ensures Local(w, v, id, {})
  { }

  lemma DestroyStore(cfg: Config, w: World, v: World, id: string)
    requires StoreOk(cfg, w) && FiredOk(w) && id in w.store.sessions && SessionOk(cfg, w, id)
    requires v == DoDestroy(w, id)
    ensures StoreOk(cfg, v) && FiredOk(v)
  {
    DestroyKeepsSound(w.store, id);
    assert v.store.sessions.Keys == w.store.sessions.Keys - {id};
    DestroyFires(cfg, w, v, id);
  }

  lemma DestroyFires(cfg: Config, w: World, v: World, id: string)
    requires FiredOk(w) && id in w.store.sessions && SessionOk(cfg, w, id) && v == DoDestroy(w, id)
    ensures FiredOk(v)
  { }

  lemma KeepsDestroy(cfg: Config, w: World, id: string)
    requires Inv(cfg, w)
    ensures Inv(cfg, DoDestroy(w, id))
  {
    var v := DoDestroy(w, id);
    if id in w.store.sessions {
      assert SessionOk(cfg, w, id);
      DestroyLocal(cfg, w, v, id);
      DestroyStore(cfg, w, v, id);
      LocalKeeps(cfg, w, v, id, {});
    }
  }

  lemma PrepareSession(cfg: Config, w: World, v: World, gen: Gen, id: string, content: string, now: int)
    requires id in w.store.sessions && SessionOk(cfg, w, id) && gen !in w.handlers && gen !in w.store.fired
    requires v == DoPrepare(cfg, w, gen, id, content, now) && v != w && id in w.used
    ensures SessionOk(cfg, v, id) && Stable(w, v, id, {gen}) && Local(w, v, id, {gen}) && HandlerOk(v, gen)
  {
    TurnsFrame(w, v, id);
  }

  lemma PrepareStore(cfg: Config, w: World, v: World, gen: Gen, id: string, content: string, now: int)
    requires StoreOk(cfg, w) && FiredOk(w) && gen !in w.handlers && id in w.store.sessions
    requires v == DoPrepare(cfg, w, gen, id, content, now)
    ensures StoreOk(cfg, v) && FiredOk(v) && gen !in w.store.fired
  {
    assert v.store.sessions.Keys == w.store.sessions.Keys;
  }

  lemma PrepareMoves(cfg: Config, w: World, v: World, gen: Gen, id: string, content: string, now: int)
    requires id in w.store.sessions && SessionOk(cfg, w, id) && gen !in w.handlers
    requires StoreOk(cfg, w) && FiredOk(w) && v == DoPrepare(cfg, w, gen, id, content, now) && v != w
    ensures Moved(cfg, w, v, id, gen)
  {
    PrepareStore(cfg, w, v, gen, id, content, now);
    PrepareSession(cfg, w, v, gen, id, content, now);
  }

  lemma KeepsPrepare(cfg: Config, w: World, gen: Gen, id: string, content: string, now: int)
    requires Inv(cfg, w) && gen !in w.handlers
    ensures Inv(cfg, DoPrepare(cfg, w, gen, id, content, now))
  {
    var v := DoPrepare(cfg, w, gen, id, content, now);
    if v != w {
      assert SessionOk(cfg, w, id);
      PrepareMoves(cfg, w, v, gen, id, content, now);
      KeepsMove(cfg, w, v, id, gen);
    }
  }

  lemma RegisterSession(cfg: Config, w: World, v: World, gen: Gen)
    requires gen in w.handlers && w.handlers[gen].phase.Prepared? && HandlerOk(w, gen) && gen !in w.store.fired
    requires w.handlers[gen].id in w.store.sessions ==> SessionOk(cfg, w, w.handlers[gen].id)
    requires v == DoRegister(w, gen)
    ensures Local(w, v, w.handlers[gen].id, {gen}) && HandlerOk(v, gen)
    ensures w.handlers[gen].id in w.store.sessions ==>
      var id := w.handlers[gen].id; id in v.store.sessions && SessionOk(cfg, v, id) && Stable(w, v, id, {gen})
  {
    var id := w.handlers[gen].id;
    if id in w.store.sessions {
      TurnsFrame(w, v, id);
    }
  }

  lemma RegisterStore(cfg: Config, w: World, v: World, gen: Gen)
    requires StoreOk(cfg, w) && FiredOk(w) && gen in w.handlers && w.handlers[gen].phase.Prepared?
    requires v == DoRegister(w, gen)
    ensures StoreOk(cfg, v) && FiredOk(v) && gen !in w.store.fired
  {
    assert v.store.sessions.Keys == w.store.sessions.Keys;
  }

  lemma RegisterMoves(cfg: Config, w: World, v: World, gen: Gen)
    requires gen in w.handlers && w.handlers[gen].phase.Prepared? && HandlerOk(w, gen)
    requires w.handlers[gen].id in w.store.sessions ==> SessionOk(cfg, w, w.handlers[gen].id)
    requires StoreOk(cfg, w) && FiredOk(w) && v == DoRegister(w, gen)
    ensures Moved(cfg, w, v, w.handlers[gen].id, gen)
  {
    RegisterStore(cfg, w, v, gen);
    RegisterSession(cfg, w, v, gen);
  }

  lemma KeepsRegister(cfg: Config, w: World, gen: Gen)
    requires Inv(cfg, w) && gen in w.handlers && w.handlers[gen].phase.Prepared?
    ensures Inv(cfg, DoRegister(w, gen))
  {
    var id := w.handlers[gen].id;
    assert HandlerOk(w, gen);
    assert id in w.store.sessions ==> SessionOk(cfg, w, id);
    RegisterMoves(cfg, w, DoRegister(w, gen), gen);
    KeepsMove(cfg, w, DoRegister(w, gen), id, gen);
  }

  lemma RefuseSession(cfg: Config, w: World, v: World, gen: Gen, now: int)
    requires gen in w.handlers && w.handlers[gen].phase.Prepared? && HandlerOk(w, gen)
    requires var id := w.handlers[gen].id; id in w.store.sessions && SessionOk(cfg, w, id)
    requires v == DoRefuse(cfg, w, gen, now)
    ensures var id := w.handlers[gen].id; SessionOk(cfg, v, id) && Stable(w, v, id, {gen})
  {
    TurnsFrame(w, v, w.handlers[gen].id);
  }

  lemma RefuseLocal(cfg: Config, w: World, v: World, gen: Gen, now: int)
    requires gen in w.handlers && w.handlers[gen].phase.Prepared? && HandlerOk(w, gen)
    requires v == DoRefuse(cfg, w, gen, now)
    ensures Local(w, v, w.handlers[gen].id, {gen}) && HandlerOk(v, gen)
  { }

  lemma RefuseStore(cfg: Config, w: World, v: World, gen: Gen, now: int)
    requires StoreOk(cfg, w) && FiredOk(w) && gen in w.handlers && w.handlers[gen].phase.Prepared?
    requires v == DoRefuse(cfg, w, gen, now)
    ensures StoreOk(cfg, v) && FiredOk(v)
  {
    FailKeepsStore(w.store, cfg, w.handlers[gen].id, now);
    RefuseFired(cfg, w, v, gen, now);
  }

  lemma FailKeepsStore(st: Store, cfg: Config, id: string, now: int)
    requires st.Sound()
    ensures st.FailPrompt(cfg, id, now).Sound()
    ensures st.FailPrompt(cfg, id, now).sessions.Keys == st.sessions.Keys
    ensures |st.FailPrompt(cfg, id, now).sessions| == |st.sessions|
  {
    assert st.FailPrompt(cfg, id, now).sessions.Keys == st.sessions.Keys;
  }

  lemma RefuseFired(cfg: Config, w: World, v: World, gen: Gen, now: int)
    requires FiredOk(w) && gen in w.handlers && w.handlers[gen].phase.Prepared?
    requires v == DoRefuse(cfg, w, gen, now)
    ensures FiredOk(v)
  { }

  lemma RefuseMoves(cfg: Config, w: World, v: World, gen: Gen, now: int)
    requires gen in w.handlers && w.handlers[gen].phase.Prepared? && HandlerOk(w, gen)
    requires w.handlers[gen].id in w.store.sessions ==> SessionOk(cfg, w, w.handlers[gen].id)
    requires StoreOk(cfg, w) && FiredOk(w) && v == DoRefuse(cfg, w, gen, now)
    ensures Moved(cfg, w, v, w.handlers[gen].id, gen)
  {
    RefuseStore(cfg, w, v, gen, now);
    RefuseLocal(cfg, w, v, gen, now);
    if w.handlers[gen].id in w.store.sessions {
      RefuseSession(cfg, w, v, gen, now);
    }
  }

  lemma KeepsRefuse(cfg: Config, w: World, gen: Gen, now: int)
    requires Inv(cfg, w) && gen in w.handlers && w.handlers[gen].phase.Prepared?
    ensures Inv(cfg, DoRefuse(cfg, w, gen, now))
  {
    var id := w.handlers[gen].id;
    assert HandlerOk(w, gen);
    assert id in w.store.sessions ==> SessionOk(cfg, w, id);
    RefuseMoves(cfg, w, DoRefuse(cfg, w, gen, now), gen, now);
    KeepsMove(cfg, w, DoRefuse(cfg, w, gen, now), id, gen);
  }

  lemma HistoryGrows(ts: seq<Turn>, t: Turn)
    ensures HistoryOf(ts + [t]) == HistoryOf(ts) + Messages(t)
  {
    assert (ts + [t])[..|ts|] == ts;
  }

  /** Handler `gen` is about to settle a live session, without destroying it. */
  ghost predicate Settling(cfg: Config, w: World, v: World, gen: Gen, now: int) {
    && gen in w.handlers && w.handlers[gen].phase.Decided? && HandlerOk(w, gen)
    && var h := w.handlers[gen];
       var o := h.phase.outcome;
       && !o.Disconnected? && h.id in w.store.sessions && SessionOk(cfg, w, h.id)
       && v == DoSettle(cfg, w, gen, h.(phase := Applied(o, true)), o, now)
  }

  /** Settling a live session: either the answered prompt joins the history, or
      the prompt is taken back. */
  lemma SettleStable(cfg: Config, w: World, v: World, gen: Gen, now: int)
    requires Settling(cfg, w, v, gen, now)
    ensures var id := w.handlers[gen].id; id in v.store.sessions && Stable(w, v, id, {gen})
  { }

  lemma SettleSession(cfg: Config, w: World, v: World, gen: Gen, now: int)
    requires Settling(cfg, w, v, gen, now)
    ensures var id := w.handlers[gen].id; id in v.store.sessions && SessionOk(cfg, v, id) && Stable(w, v, id, {gen})
  {
    var h := w.handlers[gen];
    var o := h.phase.outcome;
    SettleStable(cfg, w, v, gen, now);
    SettleTurns(cfg, w, v, gen, now);
    if o.Reply().Some? {
      HistoryGrows(w.turns[h.id], Turn(gen, h.content, o.Reply().value));
    }
  }

  lemma SettleTurns(cfg: Config, w: World, v: World, gen: Gen, now: int)
    requires Settling(cfg, w, v, gen, now)
    ensures TurnsOk(v, w.handlers[gen].id)
  {
    var h := w.handlers[gen];
    var ts := v.turns[h.id];
    forall i | 0 <= i < |ts| ensures Answered(v, h.id, ts[i]) {
      if i < |w.turns[h.id]| {
        assert Answered(w, h.id, w.turns[h.id][i]);
        assert ts[i].gen != gen;
      }
    }
    forall i | 0 <= i < |w.turns[h.id]| ensures w.turns[h.id][i].gen != gen {
      assert Answered(w, h.id, w.turns[h.id][i]);
    }
  }

  lemma SettleLocal(cfg: Config, w: World, v: World, gen: Gen, now: int)
    requires Settling(cfg, w, v, gen, now)
    ensures Local(w, v, w.handlers[gen].id, {gen})
  { }

  lemma SettleHandler(cfg: Config, w: World, v: World, gen: Gen, now: int)
    requires Settling(cfg, w, v, gen, now)
    ensures HandlerOk(v, gen)
  {
    var id := w.handlers[gen].id;
    if v.handlers[gen].phase.outcome.Reply().Some? {
      var ts := v.turns[id];
      assert ts[|ts| - 1].gen == gen;
    }
  }

  lemma SettleStore(cfg: Config, w: World, v: World, gen: Gen, now: int)
    requires Settling(cfg, w, v, gen, now) && StoreOk(cfg, w) && FiredOk(w)
    ensures StoreOk(cfg, v) && FiredOk(v)
  {
    assert v.store.sessions.Keys == w.store.sessions.Keys;
  }

  lemma SettleMoves(cfg: Config, w: World, v: World, gen: Gen, now: int)
    requires Settling(cfg, w, v, gen, now) && StoreOk(cfg, w) && FiredOk(w)
    ensures Moved(cfg, w, v, w.handlers[gen].id, gen)
  {
    SettleLocal(cfg, w, v, gen, now);
    SettleHandler(cfg, w, v, gen, now);
    SettleStore(cfg, w, v, gen, now);
    SettleSession(cfg, w, v, gen, now);
  }

  lemma OrphanMoves(cfg: Config, w: World, v: World, gen: Gen, o: Outcome, live: bool)
    requires gen in w.handlers && w.handlers[gen].phase == Decided(o) && HandlerOk(w, gen)
    requires w.handlers[gen].id !in w.store.sessions && StoreOk(cfg, w) && FiredOk(w)
    requires v == Update(w, gen, w.handlers[gen].(phase := Applied(o, live)))
    ensures Moved(cfg, w, v, w.handlers[gen].id, gen)
  { }

  /** A handler whose session is gone moves on without touching anything. */
  lemma KeepsOrphanStep(cfg: Config, w: World, v: World, gen: Gen, o: Outcome, live: bool)
    requires Inv(cfg, w) && gen in w.handlers && w.handlers[gen].phase == Decided(o)
    requires w.handlers[gen].id !in w.store.sessions
    requires v == Update(w, gen, w.handlers[gen].(phase := Applied(o, live)))
    ensures Inv(cfg, v)
  {
    assert HandlerOk(w, gen);
    OrphanMoves(cfg, w, v, gen, o, live);
    KeepsMove(cfg, w, v, w.handlers[gen].id, gen);
  }

  lemma KeepsApply(cfg: Config, w: World, gen: Gen, now: int)
    requires Inv(cfg, w) && gen in w.handlers && w.handlers[gen].phase.Decided?
    ensures Inv(cfg, DoApply(cfg, w, gen, now))
  {
    var h := w.handlers[gen];
    var o := h.phase.outcome;
    if h.id !in w.store.sessions {
      KeepsOrphanStep(cfg, w, DoApply(cfg, w, gen, now), gen, o, false);
    } else if o.Disconnected? {
      KeepsDestroy(cfg, w, h.id);
      KeepsOrphanStep(cfg, DoDestroy(w, h.id), DoApply(cfg, w, gen, now), gen, o, true);
    } else {
      assert HandlerOk(w, gen) && SessionOk(cfg, w, h.id);
      SettleMoves(cfg, w, DoApply(cfg, w, gen, now), gen, now);
      KeepsMove(cfg, w, DoApply(cfg, w, gen, now), h.id, gen);
    }
  }

  lemma SweepStore(cfg: Config, w: World, v: World, now: int)
    requires StoreOk(cfg, w) && SessionsOk(cfg, w) && v == w.(store := w.store.Sweep(now))
    ensures StoreOk(cfg, v) && v.store.fired == w.store.fired
    ensures forall id | id in v.store.sessions :: id in w.store.sessions && v.store.sessions[id] == w.store.sessions[id]
  {
    var expired := w.store.ExpiredAt(now);
    forall id | id in w.store.sessions && (id in expired || id in w.owner)
      ensures id in expired ==> w.store.sessions[id].genCancel == None
      ensures id in w.owner ==> id !in expired
    {
      assert SessionOk(cfg, w, id);
    }
    w.store.NothingToCancel(expired);
    SweepKeepsSound(w.store, now);
    SubmapIsNoLarger(v.store.sessions, w.store.sessions);
  }

  lemma SweepSessions(cfg: Config, w: World, v: World)
    requires SessionsOk(cfg, w) && v == w.(store := v.store) && v.store.fired == w.store.fired
    requires forall id | id in v.store.sessions ::
      id in w.store.sessions && v.store.sessions[id] == w.store.sessions[id]
    ensures SessionsOk(cfg, v)
  {
    forall id | id in v.store.sessions ensures SessionOk(cfg, v, id) {
      assert SessionOk(cfg, w, id);
      SessionFrame(cfg, w, v, id);
    }
  }

  lemma SweepHandlers(w: World, v: World)
    requires HandlersOk(w) && FiredOk(w) && v == w.(store := v.store) && v.store.fired == w.store.fired
    requires forall id | id in v.store.sessions ::
      id in w.store.sessions && v.store.sessions[id] == w.store.sessions[id]
    ensures HandlersOk(v) && FiredOk(v)
  {
    StepHandlers(w, v, {});
  }

  lemma KeepsSweep(cfg: Config, w: World, now: int)
    requires Inv(cfg, w)
    ensures Inv(cfg, w.(store := w.store.Sweep(now)))
  {
    var v := w.(store := w.store.Sweep(now));
    SweepStore(cfg, w, v, now);
    SweepSessions(cfg, w, v);
    SweepHandlers(w, v);
  }

  // ---- Steps inside one handler ----

  lemma TokensGrow(deltas: seq<string>, d: string)
    ensures Tokens(deltas + [d]) == Tokens(deltas) + [Token(d)]
  { }

  lemma KeepsReadSettings(cfg: Config, w: World, gen: Gen)
    requires Inv(cfg, w) && gen in w.handlers && w.handlers[gen].phase.Registered?
    ensures Inv(cfg, DoReadSettings(w, gen))
  {
    assert HandlerOk(w, gen);
    KeepsHandlerStep(cfg, w, gen, DoReadSettings(w, gen).handlers[gen]);
  }

  lemma InnerDuties(w: World, a: Action)
    requires IsInner(a) && Enabled(w, a) && HandlerOk(w, a.gen)
    ensures var h := w.handlers[a.gen]; Alike(h, Inner(h, a)) && SameDuties(w, h, Inner(h, a))
  {
    var h := w.handlers[a.gen];
    if a.Deliver? || a.DeliveryFails? {
      assert h.deltas + [] == h.deltas;
      assert h.deltas + [a.delta] + [] == h.deltas + [a.delta];
      TokensGrow(h.deltas, a.delta);
    }
  }

  lemma KeepsInner(cfg: Config, w: World, a: Action)
    requires Inv(cfg, w) && IsInner(a) && Enabled(w, a)
    ensures Inv(cfg, Update(w, a.gen, Inner(w.handlers[a.gen], a)))
  {
    assert HandlerOk(w, a.gen);
    InnerDuties(w, a);
    KeepsHandlerStep(cfg, w, a.gen, Inner(w.handlers[a.gen], a));
  }

  lemma KeepsOutside(cfg: Config, w: World, a: Action)
    requires Inv(cfg, w) && IsOutside(a) && Enabled(w, a)
    ensures Inv(cfg, Outside(cfg, w, a))
  {
    match a
    case Create(draw, now) => KeepsCreate(cfg, w, draw, now);
    case ApproveByToken(_, pick, settings, token, now) =>
      if pick.Some? { KeepsApprove(cfg, w, pick.value, settings, token, now); }
    case ApproveByCode(code, settings, token, now) =>
      if code in w.store.byCode { KeepsApprove(cfg, w, w.store.byCode[code], settings, token, now); }
    case Cancel(id) => KeepsCancel(cfg, w, id);
    case Close(id) => KeepsDestroy(cfg, w, id);
    case End(id, _) => KeepsDestroy(cfg, w, id);
    case Sweep(now) => KeepsSweep(cfg, w, now);
  }

  lemma KeepsCall(cfg: Config, w: World, a: Action)
    requires Inv(cfg, w) && !IsOutside(a) && !IsInner(a) && Enabled(w, a)
    ensures Inv(cfg, Call(cfg, w, a))
  {
    match a
    case Prepare(gen, id, content, now) => KeepsPrepare(cfg, w, gen, id, content, now);
    case Refuse(gen, now) => KeepsRefuse(cfg, w, gen, now);
    case Register(gen) => KeepsRegister(cfg, w, gen);
    case ReadSettings(gen) => KeepsReadSettings(cfg, w, gen);
    case Apply(gen, now) => KeepsApply(cfg, w, gen, now);
  }

  /** Every enabled action keeps the invariant. */
  lemma KeepsInv(cfg: Config, w: World, a: Action)
    requires Inv(cfg, w) && Enabled(w, a)
    ensures Inv(cfg, Exec(cfg, w, a))
  {
    if IsOutside(a) {
      KeepsOutside(cfg, w, a);
    } else if IsInner(a) {
      KeepsInner(cfg, w, a);
    } else {
      KeepsCall(cfg, w, a);
    }
  }
}
