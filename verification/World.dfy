/** The prompt protocol as interleaved atomic steps: any number of prompt
    handlers (internal/gateway/handlers.go) run against one session store, racing
    with creations, approvals, cancels, closes, ends and sweeps. */
module World {
  import opened Base
  import opened Settings
  import opened Store
  import opened Protocol

  /** The branch streamPrompt takes once the provider has returned. */
  datatype Outcome =
    | Disconnected
    | UpstreamError(message: string)
    | TimedOut
    | Cancelled(text: string)
    | Finished(text: string, finishReason: string)
  {
    /** The text FinishPrompt is called with, if it is called. */
    function Reply(): Option<string> {
      match this
      case Cancelled(t) => Some(t)
      case Finished(t, _) => Some(t)
      case _ => None
    }

    /** The terminal event written to the client. */
    function Terminal(): seq<Payload> {
      match this
      case Disconnected => []
      case UpstreamError(m) => [Payload.Error("upstream_error", m)]
      case TimedOut => [Payload.Error("generation_timeout", "generation timed out")]
      case Cancelled(_) => [Done("cancelled")]
      case Finished(_, r) => [Done(r)]
    }
  }

  /** Where a handler stands between its successful PreparePrompt and its return. */
  datatype Phase =
    | Prepared                               // before SetGenCancel
    | Registered                             // before SessionSettings
    | Streaming                              // inside StreamCompletion
    | Returned(completion: Completion)       // before the outcome switch
    | Decided(outcome: Outcome)              // before the manager call of its branch
    | Applied(outcome: Outcome, live: bool)  // before the terminal event
    | Ended(outcome: Outcome, live: bool)
    | Refused                                // the response writer cannot flush
  {
    predicate InFlight() {
      Prepared? || Registered? || Streaming? || Returned? || Decided?
    }

    /** The outcome came too late: the session was gone. */
    predicate TooLate() {
      (Applied? || Ended?) && !live
    }

    /** The outcome applied to the session, if it was still live then. */
    function Verdict(): Option<Outcome> {
      if (Applied? || Ended?) && live then Some(outcome) else None
    }
  }

  /** One prompt handler. `before` is the stored history just before its
      PreparePrompt and `request` the copy it got for the provider; `deltas` are
      the deltas written successfully, `dropped` the one whose write failed, and
      `frames` the events it has attempted to write, in order. */
  datatype Handler = Handler(
    phase: Phase,
    id: string,
    content: string,
    before: seq<Message>,
    request: seq<Message>,
    settings: GenerationSettings,
    deltas: seq<string>,
    dropped: seq<string>,
    frames: seq<Payload>,
    gone: bool,
    timedOut: bool)

  /** A prompt that was answered: who asked, and what went into the history. */
  datatype Turn = Turn(gen: Gen, content: string, reply: string)

  /** The state of the gateway, with history variables: the ids ever used, the
      answered prompts of each session, the handler that made a session ACTIVE
      and the time of each session's last create, prepare, finish or fail. */
  datatype World = World(
    store: Store,
    handlers: map<Gen, Handler>,
    used: set<string>,
    turns: map<string, seq<Turn>>,
    owner: map<string, Gen>,
    touched: map<string, int>)

  const START := World(Store(map[], map[], multiset{}), map[], {}, map[], map[], map[])

  datatype Action =
    | Create(draw: Option<Draw>, now: int)
    | ApproveByToken(pairToken: string, pick: Option<string>, settings: GenerationSettings,
                     token: Option<string>, now: int)
    | ApproveByCode(code: string, settings: GenerationSettings, token: Option<string>, now: int)
    | Cancel(id: string)
    | Close(id: string)
    | End(id: string, bearer: string)
    | Sweep(now: int)
    | Prepare(gen: Gen, id: string, content: string, now: int)
    | Refuse(gen: Gen, now: int)
    | Register(gen: Gen)
    | ReadSettings(gen: Gen)
    | Deliver(gen: Gen, delta: string)
    | DeliveryFails(gen: Gen, delta: string, message: string)
    | Return(gen: Gen, completion: Completion)
    | LoseClient(gen: Gen)
    | TimeOut(gen: Gen)
    | Decide(gen: Gen, outcome: Outcome)
    | Apply(gen: Gen, now: int)
    | Emit(gen: Gen)

  /** When the switch of streamPrompt can take the branch of `o`. A generation
      context keeps the first cause it ends with. The client may leave after the
      first test of the switch, so having left does not exclude a later branch. */
  predicate CanDecide(w: World, gen: Gen, o: Outcome) {
    && gen in w.handlers
    && w.handlers[gen].phase.Returned?
    && var h := w.handlers[gen];
       var c := h.phase.completion;
       match o
       case Disconnected => h.gone
       case UpstreamError(m) => c == Failed(m)
       case TimedOut => c.Completed? && h.timedOut
       case Cancelled(t) => c.Completed? && t == c.text && !h.timedOut && (gen in w.store.fired || h.gone)
       case Finished(t, r) => c == Completed(t, r) && !h.timedOut && gen !in w.store.fired
  }

  /** When an action can happen. Session ids are fresh and control tokens are
      never empty: both come from long random draws. */
  ghost predicate Enabled(w: World, a: Action) {
    match a
    case Create(draw, _) => draw.Some? ==> draw.value.id !in w.used
    case ApproveByToken(pairToken, pick, _, token, _) =>
      && (token.Some? ==> token.value != "")
      && var holders := w.store.HoldersOf(pairToken);
         if pick.Some? then pick.value in holders else holders == {}
    case ApproveByCode(_, _, token, _) => token.Some? ==> token.value != ""
    case Cancel(_) => true
    case Close(_) => true
    case End(_, _) => true
    case Sweep(_) => true
    case Prepare(gen, _, content, _) => gen !in w.handlers && content != ""
    case Refuse(gen, _) => gen in w.handlers && w.handlers[gen].phase.Prepared?
    case Register(gen) => gen in w.handlers && w.handlers[gen].phase.Prepared?
    case ReadSettings(gen) => gen in w.handlers && w.handlers[gen].phase.Registered?
    case Deliver(gen, _) => gen in w.handlers && w.handlers[gen].phase.Streaming?
    case DeliveryFails(gen, _, _) => gen in w.handlers && w.handlers[gen].phase.Streaming?
    case Return(gen, c) => gen in w.handlers && w.handlers[gen].phase.Streaming? && Contract(w.handlers[gen].deltas, c)
    case LoseClient(gen) => gen in w.handlers
    case TimeOut(gen) => gen in w.handlers && gen !in w.store.fired
    case Decide(gen, o) => CanDecide(w, gen, o)
    case Apply(gen, _) => gen in w.handlers && w.handlers[gen].phase.Decided?
    case Emit(gen) => gen in w.handlers && w.handlers[gen].phase.Applied?
  }

  function Update(w: World, gen: Gen, h: Handler): World {
    w.(handlers := w.handlers[gen := h])
  }

  function DoCreate(cfg: Config, w: World, draw: Option<Draw>, now: int): World {
    var (st, r) := w.store.Create(cfg, draw, now);
    if r.Err? then w
    else
      w.(store := st, used := w.used + {r.value}, turns := w.turns[r.value := []], touched := w.touched[r.value := now])
  }

  function DoPrepare(cfg: Config, w: World, gen: Gen, id: string, content: string, now: int): World {
    var (st, r) := w.store.PreparePrompt(cfg, id, content, now);
    if r.Err? then w
    else
      var h := Handler(Prepared, id, content, w.store.sessions[id].history, r.value, ZERO, [], [], [], false, false);
      Update(w, gen, h).(store := st, owner := w.owner[id := gen], touched := w.touched[id := now])
  }

  function DoRefuse(cfg: Config, w: World, gen: Gen, now: int): World
    requires gen in w.handlers
  {
    var h := w.handlers[gen];
    var w' := Update(w, gen, h.(phase := Refused)).(store := w.store.FailPrompt(cfg, h.id, now));
    if h.id !in w.store.sessions then w'
    else w'.(owner := w.owner - {h.id}, touched := w.touched[h.id := now])
  }

  function DoRegister(w: World, gen: Gen): World
    requires gen in w.handlers
  {
    var h := w.handlers[gen];
    Update(w, gen, h.(phase := Registered)).(store := w.store.SetGenCancel(h.id, gen).0)
  }

  function DoReadSettings(w: World, gen: Gen): World
    requires gen in w.handlers
  {
    var h := w.handlers[gen];
    var settings := if h.id in w.store.sessions then w.store.sessions[h.id].settings else ZERO;
    Update(w, gen, h.(phase := Streaming, settings := settings))
  }

  /** Removes a session at the request of a client or controller. */
  function DoDestroy(w: World, id: string): World {
    if id !in w.store.sessions then w
    else w.(store := w.store.Destroy(id), owner := w.owner - {id})
  }

  /** FinishPrompt or FailPrompt, as the branch taken calls for. */
  function Settle(cfg: Config, st: Store, id: string, o: Outcome, now: int): Store {
    if o.Reply().Some? then st.FinishPrompt(cfg, id, o.Reply().value, now) else st.FailPrompt(cfg, id, now)
  }

  /** The manager call of the branch taken: Destroy, FailPrompt or FinishPrompt.
      None of them does anything once the session is gone. */
  function DoApply(cfg: Config, w: World, gen: Gen, now: int): World
    requires gen in w.handlers && w.handlers[gen].phase.Decided?
  {
    var h := w.handlers[gen];
    var o := h.phase.outcome;
    var live := h.id in w.store.sessions;
    var k := h.(phase := Applied(o, live));
    if !live then Update(w, gen, k)
    else if o.Disconnected? then Update(DoDestroy(w, h.id), gen, k)
    else DoSettle(cfg, w, gen, k, o, now)
  }

  function DoSettle(cfg: Config, w: World, gen: Gen, k: Handler, o: Outcome, now: int): World {
    var ts := if k.id in w.turns then w.turns[k.id] else [];
    Update(w, gen, k).(
      store := Settle(cfg, w.store, k.id, o, now),
      owner := w.owner - {k.id},
      touched := w.touched[k.id := now],
      turns := if o.Reply().Some? then w.turns[k.id := ts + [Turn(gen, k.content, o.Reply().value)]] else w.turns)
  }

  /** The actions that only move one handler along. */
  predicate IsInner(a: Action) {
    a.Deliver? || a.DeliveryFails? || a.Return? || a.LoseClient? || a.TimeOut? || a.Decide? || a.Emit?
  }

  function Inner(h: Handler, a: Action): Handler
    requires IsInner(a) && (a.Emit? ==> h.phase.Applied?)
  {
    match a
    case Deliver(_, d) => h.(deltas := h.deltas + [d], frames := h.frames + [Token(d)])
    case DeliveryFails(_, d, m) =>
      h.(phase := Returned(Failed(m)), dropped := [d], frames := h.frames + [Token(d)])
    case Return(_, c) => h.(phase := Returned(c))
    case LoseClient(_) => h.(gone := true)
    case TimeOut(_) => h.(timedOut := true)
    case Decide(_, o) => h.(phase := Decided(o))
    case Emit(_) =>
      h.(phase := Ended(h.phase.outcome, h.phase.live), frames := h.frames + h.phase.outcome.Terminal())
  }

  /** The actions of clients, controllers and the sweeper outside prompts. */
  predicate IsOutside(a: Action) {
    a.Create? || a.ApproveByToken? || a.ApproveByCode? || a.Cancel? || a.Close? || a.End? || a.Sweep?
  }

  ghost function Outside(cfg: Config, w: World, a: Action): World
    requires IsOutside(a) && Enabled(w, a) && w.store.Sound()
  {
    match a
    case Create(draw, now) => DoCreate(cfg, w, draw, now)
    case ApproveByToken(_, pick, settings, token, now) =>
      w.(store := w.store.ApproveByToken(pick, settings, token, now).0)
    case ApproveByCode(code, settings, token, now) =>
      w.(store := w.store.ApproveByCode(code, settings, token, now).0)
    case Cancel(id) => w.(store := w.store.CancelGeneration(id).0)
    case Close(id) => DoDestroy(w, id)
    case End(id, bearer) => if w.store.EndByControlToken(id, bearer).1.None? then DoDestroy(w, id) else w
    case Sweep(now) => w.(store := w.store.Sweep(now))
  }

  /** The manager calls a prompt handler makes. */
  function Call(cfg: Config, w: World, a: Action): World
    requires a.Prepare? || a.Refuse? || a.Register? || a.ReadSettings? || a.Apply?
    requires !a.Prepare? ==> a.gen in w.handlers
    requires a.Apply? ==> w.handlers[a.gen].phase.Decided?
  {
    match a
    case Prepare(gen, id, content, now) => DoPrepare(cfg, w, gen, id, content, now)
    case Refuse(gen, now) => DoRefuse(cfg, w, gen, now)
    case Register(gen) => DoRegister(w, gen)
    case ReadSettings(gen) => DoReadSettings(w, gen)
    case Apply(gen, now) => DoApply(cfg, w, gen, now)
  }

  /** The world after an enabled action. */
  ghost function Exec(cfg: Config, w: World, a: Action): World
    requires Enabled(w, a) && w.store.Sound()
  {
    if IsOutside(a) then Outside(cfg, w, a)
    else if IsInner(a) then Update(w, a.gen, Inner(w.handlers[a.gen], a))
    else Call(cfg, w, a)
  }
}
