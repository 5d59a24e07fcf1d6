/** What holds over whole runs of the gateway, whatever the interleaving. */
module Runs {
  import opened Base
  import opened Settings
  import opened Store
  import opened World
  import opened Invariant

  /** `ws` are the worlds visited by performing the actions `acts` from the empty gateway. */
  ghost predicate IsRun(cfg: Config, ws: seq<World>, acts: seq<Action>) {
    && |ws| == |acts| + 1
    && ws[0] == START
    && forall n | 0 <= n < |acts| :: Follows(cfg, ws[n], acts[n], ws[n + 1])
  }

  ghost predicate Follows(cfg: Config, w: World, a: Action, v: World) {
    Enabled(w, a) && w.store.Sound() && v == Exec(cfg, w, a)
  }

  lemma StepKeepsInv(cfg: Config, ws: seq<World>, acts: seq<Action>, n: nat)
    requires IsRun(cfg, ws, acts) && n < |acts| && Inv(cfg, ws[n])
    ensures Inv(cfg, ws[n + 1])
  {
    assert Follows(cfg, ws[n], acts[n], ws[n + 1]);
    KeepsInv(cfg, ws[n], acts[n]);
  }

  lemma {:induction false} RunsKeepInv(cfg: Config, ws: seq<World>, acts: seq<Action>, n: nat)
    requires IsRun(cfg, ws, acts) && n < |ws|
    ensures Inv(cfg, ws[n])
  {
    if n == 0 {
      InvStart(cfg);
    } else {
      var k := n - 1;
      RunsKeepInv(cfg, ws, acts, k);
      StepKeepsInv(cfg, ws, acts, k);
    }
  }

  // ---- What never goes back ----

  /** A session that is still live has only moved forward. */
  predicate SessionEvolves(w: World, v: World, id: string)
    requires id in w.store.sessions && id in v.store.sessions
  {
    var s, t := w.store.sessions[id], v.store.sessions[id];
    && t.pairToken == s.pairToken && t.pairCode == s.pairCode && t.pairExpiry == s.pairExpiry
    && (s.state != Waiting ==> t.state != Waiting && t.settings == s.settings && t.controlToken == s.controlToken)
    && (id in w.turns ==> id in v.turns && w.turns[id] <= v.turns[id])
  }

  predicate HandlerEvolves(h: Handler, k: Handler) {
    && k.id == h.id && k.content == h.content && k.before == h.before && k.request == h.request
    && h.deltas <= k.deltas && h.frames <= k.frames
    && (h.phase.Verdict().Some? ==> k.phase.Verdict() == h.phase.Verdict())
  }

  ghost predicate Evolves(w: World, v: World) {
    && w.used <= v.used
    && (forall id | id in w.used && id in v.store.sessions :: id in w.store.sessions && SessionEvolves(w, v, id))
    && (forall g | g in w.handlers :: g in v.handlers && HandlerEvolves(w.handlers[g], v.handlers[g]))
    && (forall g: Gen :: w.store.fired[g] <= v.store.fired[g])
  }

  lemma EvolvesTransitive(u: World, w: World, v: World)
    requires Evolves(u, w) && Evolves(w, v)
    ensures Evolves(u, v)
  {
    forall id | id in u.used && id in v.store.sessions ensures id in u.store.sessions && SessionEvolves(u, v, id) {
      assert SessionEvolves(u, w, id) && SessionEvolves(w, v, id);
    }
  }

  lemma InnerEvolves(w: World, a: Action)
    requires IsInner(a) && Enabled(w, a)
    ensures Evolves(w, Update(w, a.gen, Inner(w.handlers[a.gen], a)))
  { }

  lemma CreateEvolves(cfg: Config, w: World, draw: Option<Draw>, now: int)
    requires draw.Some? ==> draw.value.id !in w.used
    ensures Evolves(w, DoCreate(cfg, w, draw, now))
  { }

  lemma SweepEvolves(cfg: Config, w: World, now: int)
    ensures Evolves(w, w.(store := w.store.Sweep(now)))
  { }

  lemma ApproveEvolves(cfg: Config, w: World, id: string, settings: GenerationSettings, token: Option<string>, now: int)
    requires id in w.store.sessions
    ensures Evolves(w, w.(store := w.store.Approve(id, settings, token, now).0))
  { }

  lemma CancelEvolves(cfg: Config, w: World, id: string)
    ensures Evolves(w, w.(store := w.store.CancelGeneration(id).0))
  { }

  lemma DestroyEvolves(cfg: Config, w: World, id: string)
    ensures Evolves(w, DoDestroy(w, id))
  { }

  lemma PrepareEvolves(cfg: Config, w: World, gen: Gen, id: string, content: string, now: int)
    requires gen !in w.handlers
    ensures Evolves(w, DoPrepare(cfg, w, gen, id, content, now))
  { }

  lemma RegisterEvolves(w: World, gen: Gen)
    requires gen in w.handlers && w.handlers[gen].phase.Prepared?
    ensures Evolves(w, DoRegister(w, gen))
  { }

  lemma RefuseEvolves(cfg: Config, w: World, gen: Gen, now: int)
    requires gen in w.handlers && w.handlers[gen].phase.Prepared?
    requires w.handlers[gen].id in w.store.sessions ==> w.store.sessions[w.handlers[gen].id].state == Active
    ensures Evolves(w, DoRefuse(cfg, w, gen, now))
  { }

  lemma ReadSettingsEvolves(w: World, gen: Gen)
    requires gen in w.handlers && w.handlers[gen].phase.Registered?
    ensures Evolves(w, DoReadSettings(w, gen))
  { }

  lemma SettleEvolves(cfg: Config, w: World, gen: Gen, k: Handler, o: Outcome, now: int)
    requires gen in w.handlers && HandlerEvolves(w.handlers[gen], k)
    requires k.id in w.store.sessions && w.store.sessions[k.id].state == Active
    ensures Evolves(w, DoSettle(cfg, w, gen, k, o, now))
  { }

  lemma OrphanEvolves(w: World, gen: Gen, k: Handler)
    requires gen in w.handlers && HandlerEvolves(w.handlers[gen], k)
    ensures Evolves(w, Update(w, gen, k))
  { }

  lemma ApplyEvolves(cfg: Config, w: World, gen: Gen, now: int)
    requires gen in w.handlers && w.handlers[gen].phase.Decided?
    requires w.handlers[gen].id in w.store.sessions ==> w.store.sessions[w.handlers[gen].id].state == Active
    ensures Evolves(w, DoApply(cfg, w, gen, now))
  {
    var h := w.handlers[gen];
    var o := h.phase.outcome;
    var live := h.id in w.store.sessions;
    var k := h.(phase := Applied(o, live));
    if !live {
      OrphanEvolves(w, gen, k);
    } else if o.Disconnected? {
      var x := DoDestroy(w, h.id);
      DestroyEvolves(cfg, w, h.id);
      OrphanEvolves(x, gen, k);
      EvolvesTransitive(w, x, DoApply(cfg, w, gen, now));
    } else {
      SettleEvolves(cfg, w, gen, k, o, now);
    }
  }

  /** The session an in-flight handler works for is ACTIVE, if it is live. */
  lemma InFlightMeansActive(cfg: Config, w: World, gen: Gen)
    requires Inv(cfg, w) && gen in w.handlers && w.handlers[gen].phase.InFlight()
    requires w.handlers[gen].id in w.store.sessions
    ensures w.store.sessions[w.handlers[gen].id].state == Active && w.owner[w.handlers[gen].id] == gen
  {
    assert HandlerOk(w, gen) && SessionOk(cfg, w, w.handlers[gen].id);
  }

  lemma OutsideEvolves(cfg: Config, w: World, a: Action)
    requires w.store.Sound() && IsOutside(a) && Enabled(w, a)
    ensures Evolves(w, Outside(cfg, w, a))
  {
    match a
    case Create(draw, now) => CreateEvolves(cfg, w, draw, now);
    case ApproveByToken(_, pick, settings, token, now) =>
      if pick.Some? { ApproveEvolves(cfg, w, pick.value, settings, token, now); }
    case ApproveByCode(code, settings, token, now) =>
      if code in w.store.byCode { ApproveEvolves(cfg, w, w.store.byCode[code], settings, token, now); }
    case Cancel(id) => CancelEvolves(cfg, w, id);
    case Close(id) => DestroyEvolves(cfg, w, id);
    case End(id, _) => DestroyEvolves(cfg, w, id);
    case Sweep(now) => SweepEvolves(cfg, w, now);
  }

  lemma CallEvolves(cfg: Config, w: World, a: Action)
    requires Inv(cfg, w) && !IsOutside(a) && !IsInner(a) && Enabled(w, a)
    ensures Evolves(w, Call(cfg, w, a))
  {
    match a
    case Prepare(gen, id, content, now) => PrepareEvolves(cfg, w, gen, id, content, now);
    case Refuse(gen, now) =>
      if w.handlers[gen].id in w.store.sessions { InFlightMeansActive(cfg, w, gen); }
      RefuseEvolves(cfg, w, gen, now);
    case Register(gen) => RegisterEvolves(w, gen);
    case ReadSettings(gen) => ReadSettingsEvolves(w, gen);
    case Apply(gen, now) =>
      if w.handlers[gen].id in w.store.sessions { InFlightMeansActive(cfg, w, gen); }
      ApplyEvolves(cfg, w, gen, now);
  }

  /** No action takes anything back: ids, credentials, settings, answered turns,
      what handlers remember and have written. */
  lemma ExecEvolves(cfg: Config, w: World, a: Action)
    requires Inv(cfg, w) && Enabled(w, a)
    ensures Evolves(w, Exec(cfg, w, a))
  {
    if IsOutside(a) {
      OutsideEvolves(cfg, w, a);
    } else if IsInner(a) {
      InnerEvolves(w, a);
    } else {
      CallEvolves(cfg, w, a);
    }
  }

  lemma StepEvolves(cfg: Config, ws: seq<World>, acts: seq<Action>, n: nat)
    requires IsRun(cfg, ws, acts) && n < |acts|
    ensures Evolves(ws[n], ws[n + 1])
  {
    RunsKeepInv(cfg, ws, acts, n);
    assert Follows(cfg, ws[n], acts[n], ws[n + 1]);
    ExecEvolves(cfg, ws[n], acts[n]);
  }

  /** Over any stretch of any run, nothing is taken back; in particular a
      destroyed session id never comes back to life. */
  lemma {:induction false} RunEvolves(cfg: Config, ws: seq<World>, acts: seq<Action>, i: nat, j: nat)
    requires IsRun(cfg, ws, acts) && i <= j < |ws|
    ensures Evolves(ws[i], ws[j])
    decreases j - i
  {
    if i < j {
      var k := j - 1;
      RunEvolves(cfg, ws, acts, i, k);
      StepEvolves(cfg, ws, acts, k);
      EvolvesTransitive(ws[i], ws[k], ws[j]);
    }
  }

  // ---- One generation at a time ----

  /** A live session is ACTIVE exactly when some handler is generating for it,
      and there are never two. */
  lemma ActiveIffOneHandler(cfg: Config, ws: seq<World>, acts: seq<Action>, n: nat, id: string)
    requires IsRun(cfg, ws, acts) && n < |ws| && id in ws[n].store.sessions
    ensures ws[n].store.sessions[id].state == Active <==> exists g :: Owns(ws[n], g, id)
    ensures forall g, h :: Owns(ws[n], g, id) && Owns(ws[n], h, id) ==> g == h
  {
    RunsKeepInv(cfg, ws, acts, n);
    var w := ws[n];
    assert SessionOk(cfg, w, id);
    forall g | Owns(w, g, id) ensures w.store.sessions[id].state == Active && w.owner[id] == g {
      InFlightMeansActive(cfg, w, g);
    }
  }

  /** The cancel function registered in a live session is that of the handler
      generating for it now, from its SetGenCancel on and until it has been invoked. */
  lemma RegisteredCancelIsCurrent(cfg: Config, ws: seq<World>, acts: seq<Action>, n: nat, id: string, g: Gen)
    requires IsRun(cfg, ws, acts) && n < |ws| && id in ws[n].store.sessions
    ensures ws[n].store.sessions[id].genCancel == Some(g)
       <==> Owns(ws[n], g, id) && !ws[n].handlers[g].phase.Prepared? && ws[n].store.fired[g] == 0
  {
    RunsKeepInv(cfg, ws, acts, n);
    assert SessionOk(cfg, ws[n], id);
    if Owns(ws[n], g, id) {
      InFlightMeansActive(cfg, ws[n], g);
    }
  }

  /** The manager invokes each cancel function at most once in a run. */
  lemma CancelledAtMostOnce(cfg: Config, ws: seq<World>, acts: seq<Action>, n: nat, g: Gen)
    requires IsRun(cfg, ws, acts) && n < |ws|
    ensures ws[n].store.fired[g] <= 1
  {
    RunsKeepInv(cfg, ws, acts, n);
    assert FiredOk(ws[n]);
  }
}
