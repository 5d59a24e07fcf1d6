/** When the pairing-code index finds a session: codes are drawn without looking
    whether a live session carries them (internal/session/manager.go). */
module CodeIndex {
  import opened Base
  import opened Settings
  import opened Store
  import opened World
  import opened Invariant
  import opened Runs

  // ---- What takes a session out of the index ----

  /** The code of session `id` leads to it. */
  predicate Listed(st: Store, id: string) {
    && id in st.sessions && st.sessions[id].pairCode in st.byCode
    && st.byCode[st.sessions[id].pairCode] == id
  }

  predicate SharesCode(st: Store, k: string, id: string) {
    k != id && k in st.sessions && id in st.sessions && st.sessions[k].pairCode == st.sessions[id].pairCode
  }

  /** Between `st` and `next` another session with the code of `id` was created or destroyed. */
  ghost predicate Disturbed(st: Store, next: Store, id: string) {
    exists k :: Comes(st, next, k, id) || Comes(next, st, k, id)
  }

  predicate Comes(st: Store, next: Store, k: string, id: string) {
    SharesCode(next, k, id) && k !in st.sessions
  }

  ghost predicate StaysListedIff(st: Store, next: Store, id: string) {
    Listed(next, id) <==> Listed(st, id) && !Disturbed(st, next, id)
  }

  lemma CreateDisturbs(cfg: Config, st: Store, draw: Option<Draw>, now: int, id: string)
    requires st.Sound() && id in st.sessions && (draw.Some? ==> draw.value.id !in st.sessions)
    ensures StaysListedIff(st, st.Create(cfg, draw, now).0, id)
  {
    var next := st.Create(cfg, draw, now).0;
    if next != st {
      var d := draw.value;
      assert d.code == st.sessions[id].pairCode <==> Comes(st, next, d.id, id);
    }
  }

  /** Destroying the sessions in `ids` unlists a survivor exactly if one of them has its code. */
  lemma DestroyDisturbs(st: Store, ids: set<string>, id: string)
    requires st.Sound() && ids <= st.sessions.Keys && id in st.sessions && id !in ids
    ensures StaysListedIff(st, st.DestroyAll(ids), id)
  {
    var next := st.DestroyAll(ids);
    var code := st.sessions[id].pairCode;
    assert next.sessions[id] == st.sessions[id];
    if k :| k in ids && st.sessions[k].pairCode == code {
      assert Comes(next, st, k, id);
      assert code !in next.byCode;
    } else {
      assert code in st.byCode ==> code in next.byCode;
    }
  }

  /** An operation that neither creates nor destroys sessions, nor changes a code. */
  predicate SameCodes(st: Store, next: Store) {
    && next.byCode == st.byCode && next.sessions.Keys == st.sessions.Keys
    && forall k | k in st.sessions :: next.sessions[k].pairCode == st.sessions[k].pairCode
  }

  lemma SameCodesDisturbNobody(st: Store, next: Store, id: string)
    requires SameCodes(st, next) && id in st.sessions
    ensures StaysListedIff(st, next, id)
  { }

  lemma DestroyOneDisturbs(st: Store, x: string, id: string)
    requires st.Sound() && x in st.sessions && id in st.sessions && id != x
    ensures StaysListedIff(st, st.Destroy(x), id)
  {
    st.DestroyNobody({});
    st.DestroyAllThenOne({}, x);
    assert {} + {x} == {x};
    DestroyDisturbs(st, {x}, id);
  }

  /** The session an action can destroy by name. */
  function Target(w: World, a: Action): string {
    if a.Close? || a.End? then a.id
    else if a.Apply? && a.gen in w.handlers then w.handlers[a.gen].id
    else ""
  }

  /** The store after an action is one of these. */
  ghost predicate MovesTo(cfg: Config, w: World, a: Action, next: Store) {
    || (a.Create? && next == w.store.Create(cfg, a.draw, a.now).0)
    || (a.Sweep? && next == w.store.Sweep(a.now))
    || (Target(w, a) in w.store.sessions && next == w.store.Destroy(Target(w, a)))
    || SameCodes(w.store, next)
  }

  lemma ApproveKeepsCodes(st: Store, id: string, settings: GenerationSettings, token: Option<string>, now: int)
    requires id in st.sessions
    ensures SameCodes(st, st.Approve(id, settings, token, now).0)
  { }

  lemma PrepareKeepsCodes(cfg: Config, st: Store, id: string, content: string, now: int)
    ensures SameCodes(st, st.PreparePrompt(cfg, id, content, now).0)
  { }

  lemma SettleKeepsCodes(cfg: Config, st: Store, id: string, text: string, now: int)
    ensures SameCodes(st, st.FinishPrompt(cfg, id, text, now)) && SameCodes(st, st.FailPrompt(cfg, id, now))
  { }

  lemma CancelsKeepCodes(st: Store, id: string, g: Gen)
    ensures SameCodes(st, st.SetGenCancel(id, g).0) && SameCodes(st, st.CancelGeneration(id).0)
  { }

  lemma OutsideMoves(cfg: Config, w: World, a: Action)
    requires IsOutside(a) && Enabled(w, a) && w.store.Sound()
    ensures MovesTo(cfg, w, a, Outside(cfg, w, a).store)
  {
    match a
    case ApproveByToken(_, pick, settings, token, now) =>
      if pick.Some? {
        ApproveKeepsCodes(w.store, pick.value, settings, token, now);
      }
    case ApproveByCode(code, settings, token, now) =>
      if code in w.store.byCode {
        ApproveKeepsCodes(w.store, w.store.byCode[code], settings, token, now);
      }
    case Cancel(id) =>
      CancelsKeepCodes(w.store, id, 0);
    case _ =>
  }

  lemma CallMoves(cfg: Config, w: World, a: Action)
    requires !IsOutside(a) && !IsInner(a) && Enabled(w, a)
    ensures MovesTo(cfg, w, a, Call(cfg, w, a).store)
  {
    match a
    case Prepare(gen, id, content, now) =>
      PrepareKeepsCodes(cfg, w.store, id, content, now);
    case Refuse(gen, now) =>
      SettleKeepsCodes(cfg, w.store, w.handlers[gen].id, "", now);
    case Register(gen) =>
      CancelsKeepCodes(w.store, w.handlers[gen].id, gen);
    case Apply(gen, now) =>
      ApplyMoves(cfg, w, gen, now);
    case _ =>
  }

  lemma ApplyMoves(cfg: Config, w: World, gen: Gen, now: int)
    requires gen in w.handlers && w.handlers[gen].phase.Decided?
    ensures MovesTo(cfg, w, Action.Apply(gen, now), DoApply(cfg, w, gen, now).store)
  {
    var id, o := w.handlers[gen].id, w.handlers[gen].phase.outcome;
    if id in w.store.sessions && !o.Disconnected? {
      var text := if o.Reply().Some? then o.Reply().value else "";
      SettleKeepsCodes(cfg, w.store, id, text, now);
    }
  }

  lemma StepMoves(cfg: Config, w: World, a: Action, v: World)
    requires Follows(cfg, w, a, v)
    ensures MovesTo(cfg, w, a, v.store)
  {
    if IsOutside(a) {
      OutsideMoves(cfg, w, a);
    } else if !IsInner(a) {
      CallMoves(cfg, w, a);
    }
  }

  /** One step takes a session out of the index exactly if it creates or destroys
      another one with its code, and no step brings a session back into it. */
  lemma StepListed(cfg: Config, w: World, a: Action, v: World, id: string)
    requires StoreOk(cfg, w) && Follows(cfg, w, a, v)
    requires id in w.store.sessions && id in v.store.sessions
    ensures StaysListedIff(w.store, v.store, id)
  {
    StepMoves(cfg, w, a, v);
    if SameCodes(w.store, v.store) {
      SameCodesDisturbNobody(w.store, v.store, id);
    } else if a.Create? {
      CreateDisturbs(cfg, w.store, a.draw, a.now, id);
    } else if a.Sweep? {
      DestroyDisturbs(w.store, w.store.ExpiredAt(a.now), id);
    } else {
      DestroyOneDisturbs(w.store, Target(w, a), id);
    }
  }

  lemma BornListed(cfg: Config, w: World, a: Action, v: World, id: string)
    requires Follows(cfg, w, a, v) && id !in w.store.sessions && id in v.store.sessions
    ensures Listed(v.store, id) && id in v.used
  {
    StepMoves(cfg, w, a, v);
  }

  lemma Born(cfg: Config, ws: seq<World>, acts: seq<Action>, m: nat, id: string)
    requires IsRun(cfg, ws, acts) && m + 1 < |ws|
    requires id !in ws[m].store.sessions && id in ws[m + 1].store.sessions
    ensures Listed(ws[m + 1].store, id) && id in ws[m + 1].used
  {
    assert Follows(cfg, ws[m], acts[m], ws[m + 1]);
    BornListed(cfg, ws[m], acts[m], ws[m + 1], id);
  }

  /** Since its creation (action m) no other session with the code of `id` has
      been created or destroyed. */
  ghost predicate Undisturbed(ws: seq<World>, m: nat, n: nat, id: string)
    requires n < |ws|
  {
    forall k | m < k < n :: !Disturbed(ws[k].store, ws[k + 1].store, id)
  }

  lemma {:induction false} ListedAlong(ws: seq<World>, m: nat, n: nat, id: string)
    requires m < n < |ws| && Listed(ws[m + 1].store, id)
    requires forall k | m < k < n :: StaysListedIff(ws[k].store, ws[k + 1].store, id)
    ensures Listed(ws[n].store, id) <==> Undisturbed(ws, m, n, id)
  {
    if n > m + 1 {
      ListedAlong(ws, m, n - 1, id);
      assert StaysListedIff(ws[n - 1].store, ws[n - 1 + 1].store, id);
    }
  }

  /** A live session can be found by its code exactly when, since its creation
      (action m), no other session with that code has been created or destroyed. */
  lemma ListedIffUndisturbed(cfg: Config, ws: seq<World>, acts: seq<Action>, m: nat, n: nat, id: string)
    requires IsRun(cfg, ws, acts) && m < n < |ws|
    requires id !in ws[m].store.sessions && id in ws[m + 1].store.sessions && id in ws[n].store.sessions
    ensures Listed(ws[n].store, id) <==> Undisturbed(ws, m, n, id)
  {
    Born(cfg, ws, acts, m, id);
    forall k | m < k < n ensures StaysListedIff(ws[k].store, ws[k + 1].store, id) {
      StepOfLife(cfg, ws, acts, m, k, n, id);
    }
    ListedAlong(ws, m, n, id);
  }

  /** A session known at two moments, and live at the later one, is live in between. */
  lemma LivesBetween(cfg: Config, ws: seq<World>, acts: seq<Action>, i: nat, k: nat, n: nat, id: string)
    requires IsRun(cfg, ws, acts) && i <= k <= n < |ws|
    requires id in ws[i].used && id in ws[n].store.sessions
    ensures id in ws[k].store.sessions
  {
    RunEvolves(cfg, ws, acts, i, k);
    RunEvolves(cfg, ws, acts, k, n);
  }

  lemma StepAt(cfg: Config, ws: seq<World>, acts: seq<Action>, k: nat)
    requires IsRun(cfg, ws, acts) && k < |acts|
    ensures StoreOk(cfg, ws[k]) && Follows(cfg, ws[k], acts[k], ws[k + 1])
  {
    RunsKeepInv(cfg, ws, acts, k);
  }

  lemma StepOfLife(cfg: Config, ws: seq<World>, acts: seq<Action>, m: nat, k: nat, n: nat, id: string)
    requires IsRun(cfg, ws, acts) && m < k < n < |ws|
    requires id in ws[m + 1].used && id in ws[n].store.sessions
    ensures StaysListedIff(ws[k].store, ws[k + 1].store, id)
  {
    LivesBetween(cfg, ws, acts, m + 1, k, n, id);
    LivesBetween(cfg, ws, acts, m + 1, k + 1, n, id);
    StepAt(cfg, ws, acts, k);
    StepListed(cfg, ws[k], acts[k], ws[k + 1], id);
  }

  // ---- Runs without collisions ----

  /** No session is created with a code carried by a live session. */
  ghost predicate CodesNeverCollide(ws: seq<World>, acts: seq<Action>)
    requires |ws| == |acts| + 1
  {
    forall n | 0 <= n < |acts| && acts[n].Create? && acts[n].draw.Some? ::
      NobodyHas(ws[n].store, acts[n].draw.value.code)
  }

  predicate NobodyHas(st: Store, code: string) {
    forall id | id in st.sessions :: st.sessions[id].pairCode != code
  }

  /** In a run without code collisions the index is exact: looking a code up
      finds exactly what a scan of the live sessions would. */
  lemma IndexIsExact(cfg: Config, ws: seq<World>, acts: seq<Action>, n: nat, code: string)
    requires IsRun(cfg, ws, acts) && n < |ws| && CodesNeverCollide(ws, acts)
    ensures ws[n].store.Sound() && ws[n].store.Complete()
    ensures (set id | id in ws[n].store.sessions && ws[n].store.sessions[id].pairCode == code)
      == if code in ws[n].store.byCode then {ws[n].store.byCode[code]} else {}
  {
    RunsKeepInv(cfg, ws, acts, n);
    RunKeepsComplete(cfg, ws, acts, n);
    IndexAgreesWithScan(ws[n].store, code);
  }

  lemma {:induction false} RunKeepsComplete(cfg: Config, ws: seq<World>, acts: seq<Action>, n: nat)
    requires IsRun(cfg, ws, acts) && n < |ws| && CodesNeverCollide(ws, acts)
    ensures ws[n].store.Complete()
  {
    if n > 0 {
      var k := n - 1;
      RunKeepsComplete(cfg, ws, acts, k);
      NextIsComplete(cfg, ws, acts, k);
    }
  }

  lemma NextIsComplete(cfg: Config, ws: seq<World>, acts: seq<Action>, n: nat)
    requires IsRun(cfg, ws, acts) && n < |acts| && CodesNeverCollide(ws, acts) && ws[n].store.Complete()
    ensures ws[n + 1].store.Complete()
  {
    RunsKeepInv(cfg, ws, acts, n);
    assert Follows(cfg, ws[n], acts[n], ws[n + 1]);
    StepKeepsComplete(cfg, ws[n], acts[n]);
  }

  lemma StepKeepsComplete(cfg: Config, w: World, a: Action)
    requires Inv(cfg, w) && Enabled(w, a) && w.store.Complete()
    requires a.Create? && a.draw.Some? ==> NobodyHas(w.store, a.draw.value.code)
    ensures Exec(cfg, w, a).store.Complete()
  {
    if a.Sweep? {
      DestroyKeepsComplete(w.store, w.store.ExpiredAt(a.now));
    } else if IsOutside(a) {
      OutsideKeepsComplete(cfg, w, a);
    } else if !IsInner(a) {
      CallKeepsComplete(cfg, w, a);
    }
  }

  lemma OutsideKeepsComplete(cfg: Config, w: World, a: Action)
    requires w.store.Sound() && IsOutside(a) && !a.Sweep? && Enabled(w, a) && w.store.Complete()
    requires a.Create? && a.draw.Some? ==> NobodyHas(w.store, a.draw.value.code)
    ensures Outside(cfg, w, a).store.Complete()
  {
    if a.ApproveByToken? && a.pick.Some? {
      ApproveKeepsComplete(w.store, a.pick.value, a.settings, a.token, a.now);
    } else if a.ApproveByCode? && a.code in w.store.byCode {
      ApproveKeepsComplete(w.store, w.store.byCode[a.code], a.settings, a.token, a.now);
    } else if a.Close? || a.End? {
      DestroyOneKeepsComplete(w.store, a.id);
    }
  }

  lemma ApproveKeepsComplete(st: Store, id: string, settings: GenerationSettings, token: Option<string>, now: int)
    requires id in st.sessions && st.Complete()
    ensures st.Approve(id, settings, token, now).0.Complete()
  { }

  lemma DestroyOneKeepsComplete(st: Store, id: string)
    requires st.Complete()
    ensures st.Destroy(id).Complete()
  { }

  lemma CallKeepsComplete(cfg: Config, w: World, a: Action)
    requires !IsOutside(a) && !IsInner(a) && Enabled(w, a) && w.store.Complete()
    ensures Call(cfg, w, a).store.Complete()
  {
    if a.Apply? {
      ApplyKeepsComplete(cfg, w, a.gen, a.now);
    }
  }

  lemma ApplyKeepsComplete(cfg: Config, w: World, gen: Gen, now: int)
    requires gen in w.handlers && w.handlers[gen].phase.Decided? && w.store.Complete()
    ensures DoApply(cfg, w, gen, now).store.Complete()
  {
    var id, o := w.handlers[gen].id, w.handlers[gen].phase.outcome;
    if id in w.store.sessions && !o.Disconnected? {
      assert DoApply(cfg, w, gen, now).store == Settle(cfg, w.store, id, o, now);
    }
  }
}
