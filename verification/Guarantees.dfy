/** The guarantees of the gateway, over every run and every interleaving. */
module Guarantees {
  import opened Base
  import opened Settings
  import opened Store
  import opened Protocol
  import opened World
  import opened Invariant
  import opened Runs
  import opened Sse
  import opened SseLaws
  import opened ClientPrompt
  import opened ClientEnds
  import opened WholeResponse

  // ---- Destruction ----

  /** Once a session is gone, its id never comes back. */
  lemma DestructionIsFinal(cfg: Config, ws: seq<World>, acts: seq<Action>, i: nat, j: nat, id: string)
    requires IsRun(cfg, ws, acts) && i <= j < |ws|
    requires id in ws[i].used && id !in ws[i].store.sessions
    ensures id !in ws[j].store.sessions
  {
    RunEvolves(cfg, ws, acts, i, j);
  }

  /** The number of sessions never exceeds the limit, and neither does the index. */
  lemma CapacityHolds(cfg: Config, ws: seq<World>, acts: seq<Action>, n: nat)
    requires IsRun(cfg, ws, acts) && n < |ws|
    ensures |ws[n].store.byCode| <= |ws[n].store.sessions| <= cfg.maxSessions
    ensures ws[n].store.Sound()
  {
    RunsKeepInv(cfg, ws, acts, n);
    IndexIsNoLarger(ws[n].store);
  }

  // ---- Cancellation ----

  /** When an action makes the manager invoke a cancel function, it is that of
      the handler generating right now for the session the action names. */
  lemma CancelHitsCurrent(cfg: Config, ws: seq<World>, acts: seq<Action>, n: nat, g: Gen)
    requires IsRun(cfg, ws, acts) && n < |acts|
    requires ws[n + 1].store.fired[g] != ws[n].store.fired[g]
    ensures g in ws[n].handlers
    ensures var a, id := acts[n], ws[n].handlers[g].id;
      && id in ws[n].store.sessions && Owns(ws[n], g, id)
      && if a.Apply? then a.gen == g else (a.Cancel? || a.Close? || a.End?) && a.id == id
  {
    var w, a := ws[n], acts[n];
    RunsKeepInv(cfg, ws, acts, n);
    assert Follows(cfg, w, a, ws[n + 1]);
    FiresRegistered(cfg, w, a, g);
    if a.Apply? {
      InFlightMeansActive(cfg, w, a.gen);
    }
    assert SessionOk(cfg, w, if a.Apply? then w.handlers[a.gen].id else a.id);
  }

  /** Only the registered function of the session an action is about is invoked. */
  lemma FiresRegistered(cfg: Config, w: World, a: Action, g: Gen)
    requires Inv(cfg, w) && Enabled(w, a) && Exec(cfg, w, a).store.fired[g] != w.store.fired[g]
    ensures a.Apply? || a.Cancel? || a.Close? || a.End?
    ensures var id := if a.Apply? then w.handlers[a.gen].id else a.id;
      id in w.store.sessions && w.store.sessions[id].genCancel == Some(g)
    ensures a.Apply? ==> w.handlers[a.gen].phase.Decided?
  {
    if a.Sweep? {
      SweepStore(cfg, w, Exec(cfg, w, a), a.now);
    } else if IsOutside(a) {
      OutsideFires(cfg, w, a, g);
    } else if !IsInner(a) {
      CallFires(cfg, w, a, g);
    }
  }

  lemma OutsideFires(cfg: Config, w: World, a: Action, g: Gen)
    requires w.store.Sound() && IsOutside(a) && !a.Sweep? && Enabled(w, a)
    requires Outside(cfg, w, a).store.fired[g] != w.store.fired[g]
    ensures (a.Cancel? || a.Close? || a.End?) && a.id in w.store.sessions
    ensures w.store.sessions[a.id].genCancel == Some(g)
  { }

  lemma CallFires(cfg: Config, w: World, a: Action, g: Gen)
    requires !IsOutside(a) && !IsInner(a) && Enabled(w, a)
    requires Call(cfg, w, a).store.fired[g] != w.store.fired[g]
    ensures a.Apply? && a.gen in w.handlers && w.handlers[a.gen].phase.Decided?
    ensures var id := w.handlers[a.gen].id; id in w.store.sessions && w.store.sessions[id].genCancel == Some(g)
  { }

  /** Exactly the cancel of a session and its destruction, by whatever step, invoke
      the cancel function registered in it. */
  lemma CancelIff(cfg: Config, ws: seq<World>, acts: seq<Action>, n: nat, id: string)
    requires IsRun(cfg, ws, acts) && n < |acts|
    requires id in ws[n].store.sessions && ws[n].store.sessions[id].genCancel.Some?
    ensures var g := ws[n].store.sessions[id].genCancel.value;
      ws[n + 1].store.fired[g] ==
        if acts[n] == Action.Cancel(id) || id !in ws[n + 1].store.sessions then 1 else 0
  {
    RunsKeepInv(cfg, ws, acts, n);
    assert SessionOk(cfg, ws[n], id);
    assert Follows(cfg, ws[n], acts[n], ws[n + 1]);
    CancelStep(cfg, ws[n], acts[n], ws[n + 1], id);
  }

  lemma CancelStep(cfg: Config, w: World, a: Action, v: World, id: string)
    requires Inv(cfg, w) && Follows(cfg, w, a, v) && id in w.store.sessions && w.store.sessions[id].genCancel.Some?
    ensures var g := w.store.sessions[id].genCancel.value;
      v.store.fired[g] == w.store.fired[g] + if a == Action.Cancel(id) || id !in v.store.sessions then 1 else 0
  {
    var g := w.store.sessions[id].genCancel.value;
    OnlyOneHolds(cfg, w, id, g);
    if a.Sweep? {
      SweepStore(cfg, w, v, a.now);
      w.store.SweepSurvivors(a.now);
    } else if IsOutside(a) {
      OutsideCancels(cfg, w, a, id, g);
    } else if !IsInner(a) {
      CallCancels(cfg, w, a, id, g);
    }
  }

  /** No two sessions hold the same cancel function. */
  lemma OnlyOneHolds(cfg: Config, w: World, id: string, g: Gen)
    requires Inv(cfg, w) && id in w.store.sessions && w.store.sessions[id].genCancel == Some(g)
    ensures w.store.sessions[id].state == Active
    ensures forall j | j in w.store.sessions && j != id :: w.store.sessions[j].genCancel != Some(g)
  {
    assert SessionOk(cfg, w, id);
    forall j | j in w.store.sessions && j != id ensures w.store.sessions[j].genCancel != Some(g) {
      assert SessionOk(cfg, w, j);
    }
  }

  lemma OutsideCancels(cfg: Config, w: World, a: Action, id: string, g: Gen)
    requires w.store.Sound() && w.store.sessions.Keys <= w.used && IsOutside(a) && !a.Sweep? && Enabled(w, a)
    requires id in w.store.sessions && w.store.sessions[id].genCancel == Some(g)
    requires forall j | j in w.store.sessions && j != id :: w.store.sessions[j].genCancel != Some(g)
    ensures var v := Outside(cfg, w, a).store;
      v.fired[g] == w.store.fired[g] + if a == Action.Cancel(id) || id !in v.sessions then 1 else 0
  { }

  lemma CallCancels(cfg: Config, w: World, a: Action, id: string, g: Gen)
    requires !IsOutside(a) && !IsInner(a) && Enabled(w, a)
    requires id in w.store.sessions && w.store.sessions[id].genCancel == Some(g)
    requires forall j | j in w.store.sessions && j != id :: w.store.sessions[j].genCancel != Some(g)
    ensures var v := Call(cfg, w, a).store;
      v.fired[g] == w.store.fired[g] + if id !in v.sessions then 1 else 0
  {
    if a.Apply? {
      ApplyCancels(cfg, w, a.gen, a.now, id, g);
    }
  }

  lemma ApplyCancels(cfg: Config, w: World, gen: Gen, now: int, id: string, g: Gen)
    requires gen in w.handlers && w.handlers[gen].phase.Decided?
    requires id in w.store.sessions && w.store.sessions[id].genCancel == Some(g)
    requires forall j | j in w.store.sessions && j != id :: w.store.sessions[j].genCancel != Some(g)
    ensures var v := DoApply(cfg, w, gen, now).store;
      v.fired[g] == w.store.fired[g] + if id !in v.sessions then 1 else 0
  { }

  // ---- Prompts as transactions ----

  /** The session of a prompt once it has ended with `o`, or has been refused because
      its response cannot be flushed: gone if the client has left, otherwise ready
      again with the history from before the prompt, followed by the exchange if and
      only if the prompt was answered. */
  predicate EndState(v: World, id: string, before: seq<Message>, gen: Gen, content: string, o: Option<Outcome>) {
    if o == Some(Disconnected) then id !in v.store.sessions
    else
      && id in v.store.sessions && v.store.sessions[id].state == Approved
      && v.store.sessions[id].history ==
         if o.Some? && o.value.Reply().Some? then before + Messages(Turn(gen, content, o.value.Reply().value))
         else before
  }

  /** The outcome with which an action ends the prompt of its handler. */
  function EndsWith(w: World, a: Action): Option<Outcome>
    requires a.Apply? ==> a.gen in w.handlers && w.handlers[a.gen].phase.Decided?
  {
    if a.Apply? then Some(w.handlers[a.gen].phase.outcome) else None
  }

  /** A prompt is a transaction. Whatever happened between its PreparePrompt (action
      m) and the action n that ends it, a session still live then is left with the
      whole exchange or nothing of it, as the outcome says. */
  lemma PromptIsTransaction(cfg: Config, ws: seq<World>, acts: seq<Action>, m: nat, n: nat)
    requires IsRun(cfg, ws, acts) && m < n < |acts|
    requires acts[m].Prepare? && (acts[n].Apply? || acts[n].Refuse?) && acts[n].gen == acts[m].gen
    requires acts[m].gen in ws[m + 1].handlers
    requires acts[m].id in ws[n].store.sessions
    ensures acts[m].id in ws[m].store.sessions
    ensures acts[n].Apply? ==> acts[n].gen in ws[n].handlers && ws[n].handlers[acts[n].gen].phase.Decided?
    ensures EndState(ws[n + 1], acts[m].id, ws[m].store.sessions[acts[m].id].history, acts[m].gen, acts[m].content,
                     EndsWith(ws[n], acts[n]))
  {
    var gen := acts[m].gen;
    assert Follows(cfg, ws[m], acts[m], ws[m + 1]);
    PreparedHandler(cfg, ws[m], ws[m + 1], acts[m]);
    if acts[n].Apply? {
      StillPrepared(cfg, ws, acts, m + 1, n, gen);
      SettledHistory(cfg, ws[n], gen, acts[n].now);
    } else {
      StillToRefuse(cfg, ws, acts, m + 1, n, gen);
      RefusedHistory(cfg, ws[n], gen, acts[n].now);
    }
  }

  lemma StillToRefuse(cfg: Config, ws: seq<World>, acts: seq<Action>, k: nat, n: nat, gen: Gen)
    requires IsRun(cfg, ws, acts) && k <= n < |acts| && gen in ws[k].handlers
    requires acts[n].Refuse? && acts[n].gen == gen
    ensures Inv(cfg, ws[n]) && gen in ws[n].handlers && ws[n].handlers[gen].phase.Prepared?
    ensures ws[n + 1] == DoRefuse(cfg, ws[n], gen, acts[n].now)
    ensures var h, j := ws[k].handlers[gen], ws[n].handlers[gen];
      j.id == h.id && j.content == h.content && j.before == h.before
  {
    assert Follows(cfg, ws[n], acts[n], ws[n + 1]);
    RunEvolves(cfg, ws, acts, k, n);
    RunsKeepInv(cfg, ws, acts, n);
  }

  lemma RefusedHistory(cfg: Config, w: World, gen: Gen, now: int)
    requires Inv(cfg, w) && gen in w.handlers && w.handlers[gen].phase.Prepared?
    requires w.handlers[gen].id in w.store.sessions
    ensures var h := w.handlers[gen];
      EndState(DoRefuse(cfg, w, gen, now), h.id, h.before, gen, h.content, None)
  {
    InFlightMeansActive(cfg, w, gen);
    assert SessionOk(cfg, w, w.handlers[gen].id);
    var h := w.handlers[gen];
    assert (h.before + [Message(User, h.content)])[..|h.before|] == h.before;
  }

  /** A handler keeps what it was prepared with, up to the action that settles it. */
  lemma StillPrepared(cfg: Config, ws: seq<World>, acts: seq<Action>, k: nat, n: nat, gen: Gen)
    requires IsRun(cfg, ws, acts) && k <= n < |acts| && gen in ws[k].handlers
    requires acts[n].Apply? && acts[n].gen == gen
    ensures Inv(cfg, ws[n]) && gen in ws[n].handlers && ws[n].handlers[gen].phase.Decided?
    ensures ws[n + 1] == DoApply(cfg, ws[n], gen, acts[n].now)
    ensures var h, j := ws[k].handlers[gen], ws[n].handlers[gen];
      j.id == h.id && j.content == h.content && j.before == h.before
  {
    assert Follows(cfg, ws[n], acts[n], ws[n + 1]);
    RunEvolves(cfg, ws, acts, k, n);
    RunsKeepInv(cfg, ws, acts, n);
  }

  lemma PreparedHandler(cfg: Config, w: World, v: World, a: Action)
    requires Follows(cfg, w, a, v) && a.Prepare? && a.gen in v.handlers
    ensures a.id in w.store.sessions
    ensures var h := v.handlers[a.gen];
      h.id == a.id && h.content == a.content && h.before == w.store.sessions[a.id].history
      && h.request == h.before + [Message(User, a.content)]
  { }

  lemma SettledHistory(cfg: Config, w: World, gen: Gen, now: int)
    requires Inv(cfg, w) && gen in w.handlers && w.handlers[gen].phase.Decided?
    requires w.handlers[gen].id in w.store.sessions
    ensures var h := w.handlers[gen];
      EndState(DoApply(cfg, w, gen, now), h.id, h.before, gen, h.content, Some(h.phase.outcome))
  {
    InFlightMeansActive(cfg, w, gen);
    assert SessionOk(cfg, w, w.handlers[gen].id);
    SettledHistoryOf(cfg, w, gen, now);
  }

  lemma SettledHistoryOf(cfg: Config, w: World, gen: Gen, now: int)
    requires gen in w.handlers && w.handlers[gen].phase.Decided?
    requires var h := w.handlers[gen];
      h.id in w.store.sessions && w.store.sessions[h.id].history == h.before + [Message(User, h.content)]
    ensures var h := w.handlers[gen];
      EndState(DoApply(cfg, w, gen, now), h.id, h.before, gen, h.content, Some(h.phase.outcome))
  { }

  /** The history of a session is exactly its answered prompts, in order, each
      the work of one handler and counted once, followed by the pending user
      message while it is ACTIVE. */
  lemma HistoryIsAnsweredPrompts(cfg: Config, ws: seq<World>, acts: seq<Action>, n: nat, id: string)
    requires IsRun(cfg, ws, acts) && n < |ws| && id in ws[n].store.sessions
    ensures id in ws[n].turns && TurnsOk(ws[n], id)
    ensures var s := ws[n].store.sessions[id];
      if s.state == Active
      then exists g :: Owns(ws[n], g, id)
                       && s.history == HistoryOf(ws[n].turns[id]) + [Message(User, ws[n].handlers[g].content)]
      else s.history == HistoryOf(ws[n].turns[id])
  {
    RunsKeepInv(cfg, ws, acts, n);
    assert SessionOk(cfg, ws[n], id);
    if ws[n].store.sessions[id].state == Active {
      assert Owns(ws[n], ws[n].owner[id], id);
    }
  }

  // ---- A cancel keeps what was generated ----

  /** The generation of `g` has been cancelled, and had not timed out before. */
  predicate CancelledInTime(w: World, g: Gen) {
    g in w.handlers && g in w.store.fired && !w.handlers[g].timedOut
  }

  lemma OutsideKeepsHandlers(cfg: Config, w: World, a: Action)
    requires IsOutside(a) && Enabled(w, a) && w.store.Sound()
    ensures Outside(cfg, w, a).handlers == w.handlers
  { }

  lemma CallKeepsOthers(cfg: Config, w: World, a: Action, g: Gen)
    requires !IsOutside(a) && !IsInner(a) && Enabled(w, a) && g in w.handlers && g != a.gen
    ensures g in Call(cfg, w, a).handlers && Call(cfg, w, a).handlers[g] == w.handlers[g]
  { }

  lemma CallKeepsHandler(cfg: Config, w: World, a: Action, g: Gen)
    requires !IsOutside(a) && !IsInner(a) && Enabled(w, a) && g in w.handlers
    ensures g in Call(cfg, w, a).handlers
    ensures Call(cfg, w, a).handlers[g].timedOut == w.handlers[g].timedOut
  {
    if g != a.gen {
      CallKeepsOthers(cfg, w, a, g);
    }
  }

  lemma CallKeepsBranch(cfg: Config, w: World, a: Action, g: Gen, o: Outcome)
    requires !IsOutside(a) && !IsInner(a) && Enabled(w, a) && Took(w, g, o)
    ensures Took(Call(cfg, w, a), g, o)
  {
    if g != a.gen {
      CallKeepsOthers(cfg, w, a, g);
    } else {
      assert a.Apply?;
    }
  }

  // ---- What the switch finds ----

  /** The client of handler `g` is gone, and its generation has timed out, exactly if a
      step of the run has made it so. */
  lemma {:induction false} ContextsIff(cfg: Config, ws: seq<World>, acts: seq<Action>, n: nat, g: Gen)
    requires IsRun(cfg, ws, acts) && n < |ws| && g in ws[n].handlers
    ensures ws[n].handlers[g].gone <==> exists k :: 0 <= k < n && acts[k] == LoseClient(g)
    ensures ws[n].handlers[g].timedOut <==> exists k :: 0 <= k < n && acts[k] == TimeOut(g)
  {
    if n > 0 {
      var k := n - 1;
      ContextStep(cfg, ws, acts, k, g);
      if g in ws[k].handlers {
        ContextsIff(cfg, ws, acts, k, g);
      } else {
        forall i | 0 <= i < k ensures acts[i] != LoseClient(g) && acts[i] != TimeOut(g) {
          NotBefore(cfg, ws, acts, i, k, g);
        }
      }
    }
  }

  lemma ContextStep(cfg: Config, ws: seq<World>, acts: seq<Action>, n: nat, g: Gen)
    requires IsRun(cfg, ws, acts) && n < |acts| && g in ws[n + 1].handlers
    ensures ws[n + 1].handlers[g].gone
       <==> (g in ws[n].handlers && ws[n].handlers[g].gone) || acts[n] == LoseClient(g)
    ensures ws[n + 1].handlers[g].timedOut
       <==> (g in ws[n].handlers && ws[n].handlers[g].timedOut) || acts[n] == TimeOut(g)
  {
    assert Follows(cfg, ws[n], acts[n], ws[n + 1]);
    FollowsContexts(cfg, ws[n], acts[n], ws[n + 1], g);
  }

  lemma FollowsContexts(cfg: Config, w: World, a: Action, v: World, g: Gen)
    requires Follows(cfg, w, a, v) && g in v.handlers
    ensures v.handlers[g].gone <==> (g in w.handlers && w.handlers[g].gone) || a == LoseClient(g)
    ensures v.handlers[g].timedOut <==> (g in w.handlers && w.handlers[g].timedOut) || a == TimeOut(g)
  {
    if IsOutside(a) {
      OutsideKeepsHandlers(cfg, w, a);
    } else if !IsInner(a) {
      CallContexts(cfg, w, a, g);
    }
  }

  lemma CallContexts(cfg: Config, w: World, a: Action, g: Gen)
    requires !IsOutside(a) && !IsInner(a) && Enabled(w, a) && g in Call(cfg, w, a).handlers
    ensures var k := Call(cfg, w, a).handlers[g];
      if g in w.handlers then k.gone == w.handlers[g].gone && k.timedOut == w.handlers[g].timedOut
      else !k.gone && !k.timedOut
  {
    if g in w.handlers && g != a.gen {
      CallKeepsOthers(cfg, w, a, g);
    }
  }

  /** A handler does nothing before it exists. */
  lemma NotBefore(cfg: Config, ws: seq<World>, acts: seq<Action>, i: nat, k: nat, g: Gen)
    requires IsRun(cfg, ws, acts) && i < k < |ws| && g !in ws[k].handlers
    ensures acts[i] != LoseClient(g) && acts[i] != TimeOut(g)
  {
    RunEvolves(cfg, ws, acts, i, k);
    assert Follows(cfg, ws[i], acts[i], ws[i + 1]);
  }

  /** No step changes the branch a handler has taken. */
  lemma BranchKept(cfg: Config, w: World, a: Action, v: World, g: Gen, o: Outcome)
    requires Follows(cfg, w, a, v) && Took(w, g, o)
    ensures Took(v, g, o)
  {
    if IsOutside(a) {
      OutsideKeepsHandlers(cfg, w, a);
    } else if !IsInner(a) {
      CallKeepsBranch(cfg, w, a, g, o);
    }
  }

  /** No step lets the context of handler `g` time out once it has been cancelled. */
  lemma HandlerKept(cfg: Config, w: World, a: Action, v: World, g: Gen)
    requires Follows(cfg, w, a, v) && g in w.handlers
    ensures g in v.handlers
    ensures g in w.store.fired && !w.handlers[g].timedOut ==> !v.handlers[g].timedOut
  {
    if IsOutside(a) {
      OutsideKeepsHandlers(cfg, w, a);
    } else if !IsInner(a) {
      CallKeepsHandler(cfg, w, a, g);
    }
  }

  lemma {:induction false} CancelStaysInTime(cfg: Config, ws: seq<World>, acts: seq<Action>, i: nat, n: nat, g: Gen)
    requires IsRun(cfg, ws, acts) && i <= n < |ws| && CancelledInTime(ws[i], g)
    ensures CancelledInTime(ws[n], g)
    decreases n - i
  {
    if i < n {
      StaysInTime(cfg, ws, acts, i, g);
      CancelStaysInTime(cfg, ws, acts, i + 1, n, g);
    }
  }

  lemma StaysInTime(cfg: Config, ws: seq<World>, acts: seq<Action>, n: nat, g: Gen)
    requires IsRun(cfg, ws, acts) && n < |acts| && CancelledInTime(ws[n], g)
    ensures CancelledInTime(ws[n + 1], g)
  {
    StaysFired(cfg, ws, acts, n, g);
    assert Follows(cfg, ws[n], acts[n], ws[n + 1]);
    HandlerKept(cfg, ws[n], acts[n], ws[n + 1], g);
  }

  lemma StaysFired(cfg: Config, ws: seq<World>, acts: seq<Action>, n: nat, g: Gen)
    requires IsRun(cfg, ws, acts) && n < |acts| && g in ws[n].store.fired
    ensures g in ws[n + 1].store.fired
  {
    RunEvolves(cfg, ws, acts, n, n + 1);
    assert ws[n].store.fired[g] <= ws[n + 1].store.fired[g];
  }

  /** The switch has taken the branch of `o` for handler `g`. */
  predicate Took(w: World, g: Gen, o: Outcome) {
    && g in w.handlers
    && var p := w.handlers[g].phase; (p.Decided? || p.Applied? || p.Ended?) && p.outcome == o
  }

  lemma {:induction false} BranchStays(cfg: Config, ws: seq<World>, acts: seq<Action>, i: nat, n: nat, g: Gen,
                                       o: Outcome)
    requires IsRun(cfg, ws, acts) && i <= n < |ws| && Took(ws[i], g, o)
    ensures Took(ws[n], g, o)
  {
    if i < n {
      BranchStays(cfg, ws, acts, i, n - 1, g, o);
      assert Follows(cfg, ws[n - 1], acts[n - 1], ws[n]);
      BranchKept(cfg, ws[n - 1], acts[n - 1], ws[n], g, o);
    }
  }

  /** If a generation is cancelled before it times out (state i), and the provider
      succeeds and the client is still there when the switch is reached (action n),
      then the outcome is a cancelled prompt, and when it is applied (action m) to
      a live session, the prompt and all the text generated are in the history. */
  lemma CancelKeepsWhatWasGenerated(cfg: Config, ws: seq<World>, acts: seq<Action>, i: nat, n: nat, m: nat, g: Gen)
    requires IsRun(cfg, ws, acts) && i <= n < m < |acts|
    requires CancelledInTime(ws[i], g)
    requires acts[n].Decide? && acts[n].gen == g && acts[m].Apply? && acts[m].gen == g
    requires g in ws[n].handlers && !ws[n].handlers[g].gone
    requires ws[n].handlers[g].phase.Returned? && ws[n].handlers[g].phase.completion.Completed?
    ensures var h := ws[n].handlers[g];
      var text := h.phase.completion.text;
      && text == Concat(h.deltas)
      && acts[n].outcome == Outcome.Cancelled(text)
      && (h.id in ws[m].store.sessions ==>
            && h.id in ws[m + 1].store.sessions
            && ws[m + 1].store.sessions[h.id].history == h.before + Messages(Turn(g, h.content, text)))
  {
    CancelDecided(cfg, ws, acts, i, n, g);
    BranchStays(cfg, ws, acts, n + 1, m, g, acts[n].outcome);
    if ws[n].handlers[g].id in ws[m].store.sessions {
      AppliesAnswer(cfg, ws, acts, n, m, g, acts[n].outcome);
    }
  }

  /** An answer applied to a live session is in its history. */
  lemma AppliesAnswer(cfg: Config, ws: seq<World>, acts: seq<Action>, n: nat, m: nat, g: Gen, o: Outcome)
    requires IsRun(cfg, ws, acts) && n < m < |acts| && g in ws[n].handlers
    requires acts[m].Apply? && acts[m].gen == g && Took(ws[m], g, o) && o.Reply().Some?
    requires ws[n].handlers[g].id in ws[m].store.sessions
    ensures var h := ws[n].handlers[g];
      && h.id in ws[m + 1].store.sessions
      && ws[m + 1].store.sessions[h.id].history == h.before + Messages(Turn(g, h.content, o.Reply().value))
  {
    StillPrepared(cfg, ws, acts, n, m, g);
    SettledHistory(cfg, ws[m], g, acts[m].now);
  }

  /** The switch of a generation cancelled in time. */
  lemma CancelDecided(cfg: Config, ws: seq<World>, acts: seq<Action>, i: nat, n: nat, g: Gen)
    requires IsRun(cfg, ws, acts) && i <= n < |acts| && CancelledInTime(ws[i], g)
    requires acts[n].Decide? && acts[n].gen == g
    requires g in ws[n].handlers && !ws[n].handlers[g].gone
    requires ws[n].handlers[g].phase.Returned? && ws[n].handlers[g].phase.completion.Completed?
    ensures var h := ws[n].handlers[g];
      h.phase.completion.text == Concat(h.deltas) && acts[n].outcome == Outcome.Cancelled(h.phase.completion.text)
    ensures Took(ws[n + 1], g, acts[n].outcome)
  {
    CancelStaysInTime(cfg, ws, acts, i, n, g);
    RunsKeepInv(cfg, ws, acts, n);
    assert HandlerOk(ws[n], g);
    assert Follows(cfg, ws[n], acts[n], ws[n + 1]);
    DecidesCancelled(cfg, ws[n], acts[n], ws[n + 1]);
  }

  lemma DecidesCancelled(cfg: Config, w: World, a: Action, v: World)
    requires Follows(cfg, w, a, v) && a.Decide? && CancelledInTime(w, a.gen)
    requires var h := w.handlers[a.gen]; !h.gone && h.phase.Returned? && h.phase.completion.Completed?
    ensures a.outcome == Outcome.Cancelled(w.handlers[a.gen].phase.completion.text)
    ensures Took(v, a.gen, a.outcome)
  { }

  // ---- The shape of a history ----

  /** Message i is a user message, or an assistant message directly after one. */
  predicate InPlace(history: seq<Message>, i: nat)
    requires i < |history|
  {
    || history[i].role == User
    || (history[i].role == Assistant && i > 0 && history[i - 1].role == User)
  }

  predicate WellShaped(history: seq<Message>) {
    forall i | 0 <= i < |history| :: InPlace(history, i)
  }

  lemma WellShapedWith(history: seq<Message>, m: Message)
    requires WellShaped(history)
    requires m.role == User || (m.role == Assistant && |history| > 0 && history[|history| - 1].role == User)
    ensures WellShaped(history + [m])
  {
    var grown := history + [m];
    forall i | 0 <= i < |grown| ensures InPlace(grown, i) {
      if i < |history| {
        assert InPlace(history, i);
        assert grown[i] == history[i] && (i > 0 ==> grown[i - 1] == history[i - 1]);
      } else {
        assert grown[i] == m && (i > 0 ==> grown[i - 1] == history[i - 1]);
      }
    }
  }

  lemma WellShapedGrows(history: seq<Message>, t: Turn)
    requires WellShaped(history)
    ensures WellShaped(history + Messages(t))
  {
    var asked := history + [Message(User, t.content)];
    WellShapedWith(history, Message(User, t.content));
    if t.reply == "" {
      assert history + Messages(t) == asked;
    } else {
      WellShapedWith(asked, Message(Assistant, t.reply));
      assert history + Messages(t) == asked + [Message(Assistant, t.reply)];
    }
  }

  lemma {:induction false} AnsweredPromptsAreWellShaped(ts: seq<Turn>)
    ensures WellShaped(HistoryOf(ts))
  {
    if ts != [] {
      AnsweredPromptsAreWellShaped(ts[..|ts| - 1]);
      WellShapedGrows(HistoryOf(ts[..|ts| - 1]), ts[|ts| - 1]);
    }
  }

  /** Every live history is well shaped, and ends with a user message while ACTIVE. */
  lemma HistoryIsWellShaped(cfg: Config, ws: seq<World>, acts: seq<Action>, n: nat, id: string)
    requires IsRun(cfg, ws, acts) && n < |ws| && id in ws[n].store.sessions
    ensures var s := ws[n].store.sessions[id];
      && WellShaped(s.history)
      && (s.state == Active ==> |s.history| > 0 && s.history[|s.history| - 1].role == User)
  {
    HistoryIsAnsweredPrompts(cfg, ws, acts, n, id);
    var ts := ws[n].turns[id];
    AnsweredPromptsAreWellShaped(ts);
    if ws[n].store.sessions[id].state == Active {
      var g :| Owns(ws[n], g, id)
               && ws[n].store.sessions[id].history == HistoryOf(ts) + [Message(User, ws[n].handlers[g].content)];
      WellShapedWith(HistoryOf(ts), Message(User, ws[n].handlers[g].content));
    }
  }

  /** What a handler has written: its tokens, then exactly the terminal event of
      its outcome, none if the client was found gone; and a done event is sent only
      when every delta was written and the reply is their concatenation. */
  lemma FramesMatchOutcome(cfg: Config, ws: seq<World>, acts: seq<Action>, n: nat, g: Gen)
    requires IsRun(cfg, ws, acts) && n < |ws| && g in ws[n].handlers && ws[n].handlers[g].phase.Ended?
    ensures var h := ws[n].handlers[g];
      var o := h.phase.outcome;
      && h.frames == Tokens(h.deltas + h.dropped) + (
           match o
           case Disconnected => []
           case UpstreamError(m) => [Payload.Error("upstream_error", m)]
           case TimedOut => [Payload.Error("generation_timeout", "generation timed out")]
           case Cancelled(_) => [Done("cancelled")]
           case Finished(_, reason) => [Done(reason)])
      && (o.Reply().Some? ==> h.dropped == [] && o.Reply().value == Concat(h.deltas))
  {
    RunsKeepInv(cfg, ws, acts, n);
    assert HandlerOk(ws[n], g);
  }

  /** A reply applied to a session that is live now is in its history, as the
      turn of that handler. */
  lemma AnsweredPromptIsStored(cfg: Config, ws: seq<World>, acts: seq<Action>, n: nat, g: Gen)
    requires IsRun(cfg, ws, acts) && n < |ws| && g in ws[n].handlers
    requires ws[n].handlers[g].id in ws[n].store.sessions
    requires var p := ws[n].handlers[g].phase; (p.Applied? || p.Ended?) && p.outcome.Reply().Some?
    ensures var h := ws[n].handlers[g];
      && h.id in ws[n].turns
      && Turn(g, h.content, h.phase.outcome.Reply().value) in ws[n].turns[h.id]
  {
    RunsKeepInv(cfg, ws, acts, n);
    var w := ws[n];
    var h := w.handlers[g];
    assert HandlerOk(w, g) && SessionOk(cfg, w, h.id);
    var i :| 0 <= i < |w.turns[h.id]| && w.turns[h.id][i].gen == g;
    assert Answered(w, h.id, w.turns[h.id][i]);
  }

  /** `part` stands in `history`, its messages directly after one another. */
  ghost predicate StandsIn(part: seq<Message>, history: seq<Message>) {
    exists k :: StandsAt(part, history, k)
  }

  predicate StandsAt(part: seq<Message>, history: seq<Message>, k: int) {
    0 <= k && k + |part| <= |history| && history[k..k + |part|] == part
  }

  lemma StandsInLonger(part: seq<Message>, history: seq<Message>, more: seq<Message>)
    requires StandsIn(part, history)
    ensures StandsIn(part, history + more)
  {
    var k :| StandsAt(part, history, k);
    assert (history + more)[k..k + |part|] == history[k..k + |part|];
    assert StandsAt(part, history + more, k);
  }

  lemma {:induction false} AnsweredStandsIn(ts: seq<Turn>, t: Turn)
    requires t in ts
    ensures StandsIn(Messages(t), HistoryOf(ts))
  {
    var front, last := ts[..|ts| - 1], ts[|ts| - 1];
    if last == t {
      assert StandsAt(Messages(t), HistoryOf(front) + Messages(t), |HistoryOf(front)|);
    } else {
      AnsweredStandsIn(front, t);
      StandsInLonger(Messages(t), HistoryOf(front), Messages(last));
    }
  }

  /** A reply applied to a session that is live now stands in its history. */
  lemma ReplyStandsInHistory(cfg: Config, ws: seq<World>, acts: seq<Action>, n: nat, g: Gen)
    requires IsRun(cfg, ws, acts) && n < |ws| && g in ws[n].handlers
    requires ws[n].handlers[g].id in ws[n].store.sessions
    requires var p := ws[n].handlers[g].phase; (p.Applied? || p.Ended?) && p.outcome.Reply().Some?
    ensures var h := ws[n].handlers[g];
      StandsIn(Messages(Turn(g, h.content, h.phase.outcome.Reply().value)), ws[n].store.sessions[h.id].history)
  {
    var h := ws[n].handlers[g];
    var t := Turn(g, h.content, h.phase.outcome.Reply().value);
    AnsweredPromptIsStored(cfg, ws, acts, n, g);
    HistoryIsAnsweredPrompts(cfg, ws, acts, n, h.id);
    AnsweredStandsIn(ws[n].turns[h.id], t);
    if ws[n].store.sessions[h.id].state == Active {
      var o :| Owns(ws[n], o, h.id) && ws[n].store.sessions[h.id].history
               == HistoryOf(ws[n].turns[h.id]) + [Message(User, ws[n].handlers[o].content)];
      StandsInLonger(Messages(t), HistoryOf(ws[n].turns[h.id]), [Message(User, ws[n].handlers[o].content)]);
    }
  }

  /** End to end, wherever the response stream was cut and whatever else happened:
      the terminal hands on a prefix of the deltas the provider delivered; and if
      it has seen a done event, with or without a reason in it, then it has handed
      on all of them, their concatenation is the reply, the reason is the one sent,
      it returns no error, and if the session is still live that very exchange stands
      in its history. */
  lemma ClientAgreesWithHistory(cfg: Config, ws: seq<World>, acts: seq<Action>, n: nat, g: Gen,
                                body: string, readFailed: bool, onDelta: seq<string> -> bool)
    requires IsRun(cfg, ws, acts) && n < |ws| && g in ws[n].handlers
    requires body <= Stream(Wires(ws[n].handlers[g].frames))
    ensures var h := ws[n].handlers[g];
      Deltas(Seen(body, onDelta)) <= h.deltas + h.dropped
    ensures FinishReason(Seen(body, onDelta)) != "" ==> SawDone(Seen(body, onDelta))
    ensures SawDone(Seen(body, onDelta)) ==>
      var h, text := ws[n].handlers[g], Concat(Deltas(Seen(body, onDelta)));
      && h.phase.Ended? && h.phase.outcome.Reply() == Some(text)
      && h.phase.outcome.Terminal() == [Done(FinishReason(Seen(body, onDelta)))]
      && Deltas(Seen(body, onDelta)) == h.deltas && !Fails(body, readFailed, onDelta)
      && (h.id in ws[n].store.sessions ==>
            StandsIn(Messages(Turn(g, h.content, text)), ws[n].store.sessions[h.id].history))
  {
    RunsKeepInv(cfg, ws, acts, n);
    assert HandlerOk(ws[n], g);
    var h := ws[n].handlers[g];
    SeenIsFaithful(h.frames, body, onDelta);
    ClientAgreesWithHandler(h, Seen(body, onDelta));
    FailsIff(body, readFailed, onDelta);
    if SawDone(Seen(body, onDelta)) && h.id in ws[n].store.sessions {
      ReplyStandsInHistory(cfg, ws, acts, n, g);
    }
  }

  /** The terminal's result for the whole response of a handler that has ended, if it
      takes every delta and every frame fits a line: all the deltas written, and for each
      outcome the reason it returns and whether it returns an error. */
  lemma WholeResponseIsUnderstood(cfg: Config, ws: seq<World>, acts: seq<Action>, n: nat, g: Gen,
                                  readFailed: bool, onDelta: seq<string> -> bool)
    requires IsRun(cfg, ws, acts) && n < |ws| && g in ws[n].handlers && ws[n].handlers[g].phase.Ended?
    requires forall ds :: onDelta(ds)
    requires forall p | p in ws[n].handlers[g].frames :: FrameFits(Wire(p))
    ensures var h := ws[n].handlers[g];
      var body := Stream(Wires(h.frames));
      var reason, failed := FinishReason(Seen(body, onDelta)), Fails(body, readFailed, onDelta);
      && Deltas(Seen(body, onDelta)) == h.deltas + h.dropped
      && match h.phase.outcome
         case Disconnected => reason == "" && (failed <==> readFailed)
         case UpstreamError(_) => reason == "" && failed
         case TimedOut => reason == "" && failed
         case Cancelled(_) => reason == "cancelled" && !failed
         case Finished(_, r) => reason == r && !failed
  {
    var h := ws[n].handlers[g];
    FramesMatchOutcome(cfg, ws, acts, n, g);
    var written := h.deltas + h.dropped;
    var terminal := h.phase.outcome.Terminal();
    assert h.frames == Tokens(written) + terminal;
    WholeIsReturned(written, terminal, |written|, readFailed, onDelta);
  }

  lemma ClientAgreesWithHandler(h: Handler, rs: seq<Reaction>)
    requires FramesOk(h) && Faithful(h.frames, rs)
    ensures Deltas(rs) <= h.deltas + h.dropped
    ensures FinishReason(rs) != "" ==> SawDone(rs)
    ensures SawDone(rs) ==>
      && h.phase.Ended? && h.phase.outcome.Reply() == Some(Concat(Deltas(rs)))
      && h.phase.outcome.Terminal() == [Done(FinishReason(rs))]
      && Deltas(rs) == h.deltas
  {
    var terminal := if h.phase.Ended? then h.phase.outcome.Terminal() else [];
    ClientSeesTheTruth(h.deltas + h.dropped, terminal, rs);
    assert h.deltas + [] == h.deltas;
  }

  /** A prompt refused because its response cannot be flushed gets an empty
      response: the terminal sees neither an error nor a finish reason. */
  lemma RefusedEndsSilently(cfg: Config, ws: seq<World>, acts: seq<Action>, n: nat, g: Gen,
                            body: string, onDelta: seq<string> -> bool)
    requires IsRun(cfg, ws, acts) && n < |ws| && g in ws[n].handlers && ws[n].handlers[g].phase.Refused?
    requires body <= Stream(Wires(ws[n].handlers[g].frames)) && forall ds :: onDelta(ds)
    ensures body == "" && Silent(body, false, onDelta)
  {
    RunsKeepInv(cfg, ws, acts, n);
    assert HandlerOk(ws[n], g);
    SilentIff([], body, false, onDelta);
  }

  // ---- Deadlines ----

  /** The actions that restart the idle clock of session `id`. */
  predicate Touches(w: World, a: Action, id: string) {
    || (a.Prepare? && a.id == id && id in w.store.sessions && w.store.sessions[id].state == Approved)
    || ((a.Refuse? || a.Apply?) && a.gen in w.handlers && w.handlers[a.gen].id == id)
  }

  /** The idle deadline moves only with a prepare, finish or fail of the session,
      to that time plus the idle timeout; in particular approval does not move it. */
  lemma DeadlineMoves(cfg: Config, ws: seq<World>, acts: seq<Action>, n: nat, id: string)
    requires IsRun(cfg, ws, acts) && n < |acts|
    requires id in ws[n].store.sessions && id in ws[n + 1].store.sessions
    ensures ws[n + 1].store.sessions[id].idleDeadline ==
            if Touches(ws[n], acts[n], id) then acts[n].now + cfg.idleTimeout
            else ws[n].store.sessions[id].idleDeadline
  {
    RunsKeepInv(cfg, ws, acts, n);
    assert Follows(cfg, ws[n], acts[n], ws[n + 1]);
    StepDeadline(cfg, ws[n], acts[n], ws[n + 1], id);
  }

  lemma StepDeadline(cfg: Config, w: World, a: Action, v: World, id: string)
    requires StoreOk(cfg, w) && Follows(cfg, w, a, v) && id in w.store.sessions && id in v.store.sessions
    ensures v.store.sessions[id].idleDeadline ==
            if Touches(w, a, id) then a.now + cfg.idleTimeout else w.store.sessions[id].idleDeadline
  {
    if IsOutside(a) {
      OutsideDeadline(cfg, w, a, id);
    } else if !IsInner(a) {
      CallDeadline(cfg, w, a, id);
    }
  }

  /** In every reachable state the deadline of a live session is the time of its
      last create, prepare, finish or fail plus the idle timeout. */
  lemma DeadlineIsLastTouch(cfg: Config, ws: seq<World>, acts: seq<Action>, n: nat, id: string)
    requires IsRun(cfg, ws, acts) && n < |ws| && id in ws[n].store.sessions
    ensures id in ws[n].touched && ws[n].store.sessions[id].idleDeadline == ws[n].touched[id] + cfg.idleTimeout
  {
    RunsKeepInv(cfg, ws, acts, n);
    assert SessionOk(cfg, ws[n], id);
  }

  /** A sweep ends exactly the WAITING sessions past their pairing expiry and the
      APPROVED ones whose last create, prepare, finish or fail is longer ago than the
      idle timeout; never an ACTIVE one. */
  lemma SweptIff(cfg: Config, ws: seq<World>, acts: seq<Action>, n: nat, id: string)
    requires IsRun(cfg, ws, acts) && n < |acts| && acts[n].Sweep? && id in ws[n].store.sessions
    ensures id in ws[n].touched
    ensures id !in ws[n + 1].store.sessions <==>
      var s := ws[n].store.sessions[id];
      || (s.state == Waiting && acts[n].now > s.pairExpiry)
      || (s.state == Approved && acts[n].now > ws[n].touched[id] + cfg.idleTimeout)
  {
    RunsKeepInv(cfg, ws, acts, n);
    assert SessionOk(cfg, ws[n], id);
    assert Follows(cfg, ws[n], acts[n], ws[n + 1]);
    SweepFollows(cfg, ws[n], acts[n], ws[n + 1]);
    SweptStep(ws[n].store, acts[n].now, ws[n + 1].store, id);
  }

  lemma SweepFollows(cfg: Config, w: World, a: Action, v: World)
    requires Follows(cfg, w, a, v) && a.Sweep?
    ensures v.store == w.store.Sweep(a.now)
  { }

  lemma SweptStep(st: Store, now: int, next: Store, id: string)
    requires next == st.Sweep(now) && id in st.sessions && st.sessions[id].state != Destroyed
    ensures id !in next.sessions <==>
      var s := st.sessions[id];
      (s.state == Waiting && now > s.pairExpiry) || (s.state == Approved && now > s.idleDeadline)
  {
    st.SweepSurvivors(now);
  }

  lemma OutsideDeadline(cfg: Config, w: World, a: Action, id: string)
    requires w.store.Sound() && w.store.sessions.Keys <= w.used && IsOutside(a) && Enabled(w, a)
    requires id in w.store.sessions && id in Outside(cfg, w, a).store.sessions
    ensures Outside(cfg, w, a).store.sessions[id].idleDeadline == w.store.sessions[id].idleDeadline
  { }

  lemma CallDeadline(cfg: Config, w: World, a: Action, id: string)
    requires !IsOutside(a) && !IsInner(a) && Enabled(w, a)
    requires id in w.store.sessions && id in Call(cfg, w, a).store.sessions
    ensures Call(cfg, w, a).store.sessions[id].idleDeadline ==
            if Touches(w, a, id) then a.now + cfg.idleTimeout else w.store.sessions[id].idleDeadline
  { }

  // ---- Creation ----

  /** A creation that can draw succeeds exactly below the session limit. The session
      keeps the drawn credentials as long as it lives, and can be approved for the
      pairing timeout from its creation on. */
  lemma CreatedIff(cfg: Config, ws: seq<World>, acts: seq<Action>, m: nat, n: nat)
    requires IsRun(cfg, ws, acts) && m < n < |ws| && acts[m].Create? && acts[m].draw.Some?
    ensures acts[m].draw.value.id in ws[m + 1].store.sessions <==> |ws[m].store.sessions| < cfg.maxSessions
    ensures var d := acts[m].draw.value;
      |ws[m].store.sessions| < cfg.maxSessions ==>
        && ws[m + 1].store.sessions[d.id].state == Waiting && ws[m + 1].store.sessions[d.id].history == []
        && (d.id in ws[n].store.sessions ==>
              var s := ws[n].store.sessions[d.id];
              s.pairToken == d.token && s.pairCode == d.code && s.pairExpiry == acts[m].now + cfg.pairTimeout)
  {
    assert Follows(cfg, ws[m], acts[m], ws[m + 1]);
    RunsKeepInv(cfg, ws, acts, m);
    CreateStep(cfg, ws[m], acts[m], ws[m + 1]);
    RunEvolves(cfg, ws, acts, m + 1, n);
  }

  lemma CreateStep(cfg: Config, w: World, a: Action, v: World)
    requires StoreOk(cfg, w) && Follows(cfg, w, a, v) && a.Create? && a.draw.Some?
    ensures var d := a.draw.value;
      if |w.store.sessions| < cfg.maxSessions then
        && d.id in v.store.sessions && d.id in v.used
        && var s := v.store.sessions[d.id];
           && s.state == Waiting && s.history == [] && s.pairToken == d.token && s.pairCode == d.code
           && s.pairExpiry == a.now + cfg.pairTimeout
      else d.id !in v.store.sessions
  { }

  // ---- Approval ----

  /** Session `id` is approved by action n. */
  predicate ApprovedAt(ws: seq<World>, n: nat, id: string)
    requires n + 1 < |ws|
  {
    && id in ws[n].store.sessions && ws[n].store.sessions[id].state == Waiting
    && id in ws[n + 1].store.sessions && ws[n + 1].store.sessions[id].state != Waiting
  }

  /** The request of action `a` reaches session `id`: the scan for its token stops
      there, or the index lists the session under its code. */
  predicate Reaches(w: World, a: Action, id: string) {
    || (a.ApproveByToken? && a.pick == Some(id))
    || (a.ApproveByCode? && a.code in w.store.byCode && w.store.byCode[a.code] == id)
  }

  /** A request in time, with valid settings, for which a control token can be drawn. */
  predicate Admissible(a: Action, expiry: int)
    requires a.ApproveByToken? || a.ApproveByCode?
  {
    a.now <= expiry && a.settings.Valid() && a.token.Some?
  }

  /** A WAITING session is approved by a step exactly if the step is a request that
      reaches it, which then bears one of its credentials, no later than its pairing
      expiry, with valid settings, and a control token can be drawn. It then has these
      settings and that token, and is otherwise as it was. */
  lemma ApprovalIff(cfg: Config, ws: seq<World>, acts: seq<Action>, n: nat, id: string)
    requires IsRun(cfg, ws, acts) && n < |acts|
    requires id in ws[n].store.sessions && ws[n].store.sessions[id].state == Waiting
    ensures ApprovedAt(ws, n, id) <==>
      Reaches(ws[n], acts[n], id) && Admissible(acts[n], ws[n].store.sessions[id].pairExpiry)
    ensures Reaches(ws[n], acts[n], id) ==> Bears(acts[n], ws[n].store.sessions[id])
    ensures ApprovedAt(ws, n, id) ==>
      var a := acts[n];
      && a.token.value != ""
      && ws[n + 1].store.sessions[id]
         == ws[n].store.sessions[id].(state := Approved, settings := a.settings, controlToken := a.token.value)
  {
    assert Follows(cfg, ws[n], acts[n], ws[n + 1]);
    RunsKeepInv(cfg, ws, acts, n);
    ApprovalStep(cfg, ws[n], acts[n], ws[n + 1], id);
    DrawnToken(ws[n], acts[n]);
  }

  lemma DrawnToken(w: World, a: Action)
    requires Enabled(w, a)
    ensures (a.ApproveByToken? || a.ApproveByCode?) && a.token.Some? ==> a.token.value != ""
  { }

  /** The request of action `a` bears a credential of session `s`. */
  predicate Bears(a: Action, s: SessionView)
    requires a.ApproveByToken? || a.ApproveByCode?
  {
    if a.ApproveByToken? then a.pairToken == s.pairToken else a.code == s.pairCode
  }

  /** The token of the QR code, if no other live session has it, and a code that is
      listed do approve: it then depends on time, settings and draw only. */
  lemma CredentialApproves(cfg: Config, ws: seq<World>, acts: seq<Action>, n: nat, id: string)
    requires IsRun(cfg, ws, acts) && n < |acts|
    requires id in ws[n].store.sessions && ws[n].store.sessions[id].state == Waiting
    requires var st, a := ws[n].store, acts[n];
      || (a.ApproveByToken? && forall j | j in st.sessions :: st.sessions[j].pairToken == a.pairToken <==> j == id)
      || (a.ApproveByCode? && a.code in st.byCode && st.byCode[a.code] == id)
    ensures ApprovedAt(ws, n, id) <==> Admissible(acts[n], ws[n].store.sessions[id].pairExpiry)
  {
    ApprovalIff(cfg, ws, acts, n, id);
    assert Follows(cfg, ws[n], acts[n], ws[n + 1]);
    if acts[n].ApproveByToken? {
      OnlyHolder(ws[n], acts[n], id);
    }
  }

  lemma OnlyHolder(w: World, a: Action, id: string)
    requires Enabled(w, a) && a.ApproveByToken? && id in w.store.sessions
    requires forall j | j in w.store.sessions :: w.store.sessions[j].pairToken == a.pairToken <==> j == id
    ensures Reaches(w, a, id)
  {
    assert id in w.store.HoldersOf(a.pairToken);
  }

  /** What becomes of a WAITING session `s` in a step. */
  predicate Approval(w: World, a: Action, s: SessionView, id: string, v: Store) {
    if Reaches(w, a, id) then
      && Bears(a, s) && id in v.sessions
      && v.sessions[id] ==
         if Admissible(a, s.pairExpiry)
         then s.(state := Approved, settings := a.settings, controlToken := a.token.value)
         else s
    else
      id in v.sessions ==> v.sessions[id].state == Waiting
  }

  lemma ApprovalStep(cfg: Config, w: World, a: Action, v: World, id: string)
    requires Inv(cfg, w) && Follows(cfg, w, a, v) && id in w.store.sessions && w.store.sessions[id].state == Waiting
    ensures Approval(w, a, w.store.sessions[id], id, v.store)
  {
    if a.ApproveByToken? || a.ApproveByCode? {
      assert v == Outside(cfg, w, a);
      RequestApproves(cfg, w, a, id);
    } else {
      OtherApprovesNobody(cfg, w, a, v, id);
    }
  }

  lemma OtherApprovesNobody(cfg: Config, w: World, a: Action, v: World, id: string)
    requires Inv(cfg, w) && Follows(cfg, w, a, v) && !a.ApproveByToken? && !a.ApproveByCode?
    requires id in w.store.sessions && w.store.sessions[id].state == Waiting
    ensures id in v.store.sessions ==> v.store.sessions[id].state == Waiting
  {
    if IsOutside(a) {
      OutsideApprovesNobody(cfg, w, a, id);
    } else if !IsInner(a) {
      if (a.Refuse? || a.Apply?) && w.handlers[a.gen].id == id {
        InFlightMeansActive(cfg, w, a.gen);
      }
      CallApprovesNobody(cfg, w, a, id);
    } else {
      InnerKeepsStore(cfg, w, a);
    }
  }

  lemma InnerKeepsStore(cfg: Config, w: World, a: Action)
    requires IsInner(a) && Enabled(w, a) && w.store.Sound()
    ensures Exec(cfg, w, a).store == w.store
  { }

  lemma RequestApproves(cfg: Config, w: World, a: Action, id: string)
    requires w.store.Sound() && (a.ApproveByToken? || a.ApproveByCode?) && Enabled(w, a)
    requires id in w.store.sessions && w.store.sessions[id].state == Waiting
    ensures Approval(w, a, w.store.sessions[id], id, Outside(cfg, w, a).store)
  { }

  lemma OutsideApprovesNobody(cfg: Config, w: World, a: Action, id: string)
    requires w.store.Sound() && w.store.sessions.Keys <= w.used && IsOutside(a) && Enabled(w, a)
    requires !a.ApproveByToken? && !a.ApproveByCode?
    requires id in w.store.sessions && w.store.sessions[id].state == Waiting
    ensures var v := Outside(cfg, w, a).store; id in v.sessions ==> v.sessions[id].state == Waiting
  { }

  lemma CallApprovesNobody(cfg: Config, w: World, a: Action, id: string)
    requires !IsOutside(a) && !IsInner(a) && Enabled(w, a)
    requires id in w.store.sessions && w.store.sessions[id].state == Waiting
    requires a.Refuse? || a.Apply? ==> w.handlers[a.gen].id != id
    ensures id in Call(cfg, w, a).store.sessions && Call(cfg, w, a).store.sessions[id].state == Waiting
  { }

  /** How many of the first n actions approve session `id`. */
  function Approvals(ws: seq<World>, n: nat, id: string): nat
    requires n < |ws|
  {
    if n == 0 then 0 else Approvals(ws, n - 1, id) + if ApprovedAt(ws, n - 1, id) then 1 else 0
  }

  /** Session `id` is, or was when it was live, past its approval. */
  predicate PastApproval(w: World, id: string) {
    id in w.used && (id in w.store.sessions ==> w.store.sessions[id].state != Waiting)
  }

  lemma ApprovalPasses(cfg: Config, ws: seq<World>, acts: seq<Action>, n: nat, id: string)
    requires IsRun(cfg, ws, acts) && n < |acts|
    ensures PastApproval(ws[n], id) ==> PastApproval(ws[n + 1], id) && !ApprovedAt(ws, n, id)
    ensures ApprovedAt(ws, n, id) ==> PastApproval(ws[n + 1], id)
  {
    RunEvolves(cfg, ws, acts, n, n + 1);
    RunsKeepInv(cfg, ws, acts, n + 1);
  }

  /** A session is approved at most once in a run, by either credential. */
  lemma {:induction false} ApprovedAtMostOnce(cfg: Config, ws: seq<World>, acts: seq<Action>, n: nat, id: string)
    requires IsRun(cfg, ws, acts) && n < |ws|
    ensures Approvals(ws, n, id) <= 1
    ensures Approvals(ws, n, id) == 1 ==> PastApproval(ws[n], id)
  {
    if n > 0 {
      var k := n - 1;
      ApprovedAtMostOnce(cfg, ws, acts, k, id);
      ApprovalPasses(cfg, ws, acts, k, id);
    }
  }

  /** From approval until destruction, settings and control token never change. */
  lemma ApprovalIsFrozen(cfg: Config, ws: seq<World>, acts: seq<Action>, i: nat, j: nat, id: string)
    requires IsRun(cfg, ws, acts) && i <= j < |ws|
    requires id in ws[i].store.sessions && ws[i].store.sessions[id].state != Waiting
    requires id in ws[j].store.sessions
    ensures var s, t := ws[i].store.sessions[id], ws[j].store.sessions[id];
      && t.state != Waiting && t.settings == s.settings && t.controlToken == s.controlToken
      && s.settings.Valid() && s.controlToken != ""
  {
    RunsKeepInv(cfg, ws, acts, i);
    RunEvolves(cfg, ws, acts, i, j);
    assert SessionOk(cfg, ws[i], id);
  }

  /** A controller's end request destroys a live session exactly when it bears
      the control token issued at approval; before approval nothing does. */
  lemma EndNeedsToken(cfg: Config, ws: seq<World>, acts: seq<Action>, n: nat, id: string)
    requires IsRun(cfg, ws, acts) && n < |acts| && acts[n].End? && acts[n].id == id
    requires id in ws[n].store.sessions
    ensures id !in ws[n + 1].store.sessions
      <==> ws[n].store.sessions[id].state != Waiting && acts[n].bearer == ws[n].store.sessions[id].controlToken
  {
    RunsKeepInv(cfg, ws, acts, n);
    assert Follows(cfg, ws[n], acts[n], ws[n + 1]);
    assert SessionOk(cfg, ws[n], id);
  }

  /** A close destroys the session it names, in whatever state it is, and a destroyed
      session's generation is cancelled with it. */
  lemma CloseEnds(cfg: Config, ws: seq<World>, acts: seq<Action>, n: nat)
    requires IsRun(cfg, ws, acts) && n < |acts| && acts[n].Close?
    ensures acts[n].id !in ws[n + 1].store.sessions
    ensures forall j | j in ws[n].store.sessions && j != acts[n].id ::
      j in ws[n + 1].store.sessions && ws[n + 1].store.sessions[j] == ws[n].store.sessions[j]
  {
    assert Follows(cfg, ws[n], acts[n], ws[n + 1]);
    CloseStep(cfg, ws[n], acts[n], ws[n + 1]);
  }

  lemma CloseStep(cfg: Config, w: World, a: Action, v: World)
    requires Follows(cfg, w, a, v) && a.Close?
    ensures v.store == w.store.Destroy(a.id)
  { }

  /** The label the terminal shows after approval (settings read at world i)
      describes the upstream request of every later prompt of that session whose
      handler reads the settings (action j) while the session is live. */
  lemma LabelDescribesPrompts(cfg: Config, ws: seq<World>, acts: seq<Action>, i: nat, j: nat, clientModel: string)
    requires IsRun(cfg, ws, acts) && i <= j < |acts| && acts[j].ReadSettings?
    requires acts[j].gen in ws[j].handlers
    requires var id := ws[j].handlers[acts[j].gen].id;
      && id in ws[i].store.sessions && ws[i].store.sessions[id].state != Waiting && id in ws[j].store.sessions
    ensures acts[j].gen in ws[j + 1].handlers
    ensures var id := ws[j].handlers[acts[j].gen].id;
      var approved := ws[i].store.sessions[id].settings;
      var sent := ws[j + 1].handlers[acts[j].gen].settings;
      && Effective(clientModel, sent) == approved
      && Label(StatusOf(Effective(clientModel, sent))) == Label(StatusOf(approved))
  {
    var id := ws[j].handlers[acts[j].gen].id;
    ApprovalIsFrozen(cfg, ws, acts, i, j, id);
    ReadsSettings(cfg, ws[j], acts[j], ws[j + 1]);
    ValidIsEffective(clientModel, ws[i].store.sessions[id].settings);
  }

  lemma ReadsSettings(cfg: Config, w: World, a: Action, v: World)
    requires Follows(cfg, w, a, v) && a.ReadSettings?
    requires w.handlers[a.gen].id in w.store.sessions
    ensures a.gen in v.handlers && v.handlers[a.gen].settings == w.store.sessions[w.handlers[a.gen].id].settings
  { }

  lemma ValidIsEffective(clientModel: string, s: GenerationSettings)
    requires s.Valid()
    ensures Effective(clientModel, s) == s
  { }
}
