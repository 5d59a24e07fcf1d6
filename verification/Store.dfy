/** The session store as a value: what each Manager operation does to the
    sessions, the pairing-code index and the cancel functions it has invoked
    (internal/session/manager.go). Times are clock readings in nanoseconds. */
module Store {
  import opened Base
  import opened Settings

  datatype State = Waiting | Approved | Active | Destroyed

  datatype Role = System | User | Assistant

  datatype Message = Message(role: Role, content: string)

  /** Names the cancel function of one generation. */
  type Gen = nat

  datatype SessionView = SessionView(
    state: State,
    pairToken: string,
    pairCode: string,
    pairExpiry: int,
    idleDeadline: int,
    history: seq<Message>,
    controlToken: string,
    settings: GenerationSettings,
    genCancel: Option<Gen>)
  {
    /** The session once it has been approved. */
    function Granted(token: string, settings: GenerationSettings): SessionView {
      this.(controlToken := token, settings := settings, state := Approved)
    }

    /** The session once a prompt has been prepared. */
    function Asked(content: string, deadline: int): SessionView {
      this.(history := history + [Message(User, content)], state := Active, idleDeadline := deadline)
    }

    /** The session once its generation has ended well. */
    function Finished(text: string, deadline: int): SessionView {
      var history := if text != "" then history + [Message(Assistant, text)] else history;
      this.(history := history, state := Approved, idleDeadline := deadline, genCancel := None)
    }

    /** The session once its generation has failed. */
    function Failed(deadline: int): SessionView {
      var n := |history|;
      var history := if n > 0 && history[n - 1].role == User then history[..n - 1] else history;
      this.(history := history, state := Approved, idleDeadline := deadline, genCancel := None)
    }
  }

  datatype Config = Config(pairTimeout: int, idleTimeout: int, maxSessions: nat)

  /** One successful draw of the random values a new session needs. */
  datatype Draw = Draw(id: string, token: string, code: string)

  datatype Error =
    | NotFound | MaxSessions | PairingExpired | AlreadyApproved | NotApproved
    | NotActive | Unauthorized | InvalidSettings | RandomFailure

  function NewSession(cfg: Config, d: Draw, now: int): SessionView {
    SessionView(Waiting, d.token, d.code, now + cfg.pairTimeout, now + cfg.idleTimeout, [], "", ZERO, None)
  }

  /** The multiset holding the cancel function `g`, if there is one. */
  function Fire(g: Option<Gen>): multiset<Gen> {
    if g.Some? then multiset{g.value} else multiset{}
  }

  /** What Sweep destroys at time `now`; ACTIVE sessions never expire. */
  predicate Expired(s: SessionView, now: int) {
    || (s.state == Waiting && now > s.pairExpiry)
    || (s.state == Approved && now > s.idleDeadline)
  }

  datatype Store = Store(sessions: map<string, SessionView>, byCode: map<string, string>, fired: multiset<Gen>) {

    function With(id: string, s: SessionView): Store {
      this.(sessions := sessions[id := s])
    }

    function Insert(cfg: Config, d: Draw, now: int): Store {
      With(d.id, NewSession(cfg, d, now)).(byCode := byCode[d.code := d.id])
    }

    function Create(cfg: Config, draw: Option<Draw>, now: int): (Store, Result<string, Error>) {
      if |sessions| >= cfg.maxSessions then (this, Err(MaxSessions))
      else if draw.None? then (this, Err(RandomFailure))
      else
        (Insert(cfg, draw.value, now), Ok(draw.value.id))
    }

    /** Approves session `id`; `token` is the control token drawn, if the draw succeeds. */
    function Approve(id: string, settings: GenerationSettings, token: Option<string>, now: int)
        : (Store, Result<string, Error>)
      requires id in sessions
    {
      var s := sessions[id];
      if now > s.pairExpiry then (this, Err(PairingExpired))
      else if s.state != Waiting then (this, Err(AlreadyApproved))
      else if !settings.Valid() then (this, Err(InvalidSettings))
      else if token.None? then (this, Err(RandomFailure))
      else
        (With(id, s.Granted(token.value, settings)), Ok(id))
    }

    /** The sessions a scan for pairing token `token` can stop at. */
    function HoldersOf(token: string): set<string> {
      set id | id in sessions && sessions[id].pairToken == token
    }

    /** Approval by pairing token, when the scan stops at `pick`. */
    function ApproveByToken(pick: Option<string>, settings: GenerationSettings, token: Option<string>, now: int)
        : (Store, Result<string, Error>)
      requires pick.Some? ==> pick.value in sessions
    {
      if pick.None? then (this, Err(NotFound)) else Approve(pick.value, settings, token, now)
    }

    function ApproveByCode(code: string, settings: GenerationSettings, token: Option<string>, now: int)
        : (Store, Result<string, Error>)
      requires Sound()
    {
      if code !in byCode then (this, Err(NotFound)) else Approve(byCode[code], settings, token, now)
    }

    function PreparePrompt(cfg: Config, id: string, content: string, now: int)
        : (Store, Result<seq<Message>, Error>)
    {
      if id !in sessions then (this, Err(NotFound))
      else
        var s := sessions[id];
        if s.state != Approved then (this, Err(NotApproved))
        else
          var asked := s.Asked(content, now + cfg.idleTimeout);
          (With(id, asked), Ok(asked.history))
    }

    lemma PreparesApproved(cfg: Config, id: string, content: string, now: int, next: Store)
      requires id in sessions && sessions[id].state == Approved
      requires next == With(id, sessions[id].Asked(content, now + cfg.idleTimeout))
      ensures PreparePrompt(cfg, id, content, now) == (next, Ok(next.sessions[id].history))
    { }

    function FinishPrompt(cfg: Config, id: string, text: string, now: int): Store {
      if id !in sessions then this else With(id, sessions[id].Finished(text, now + cfg.idleTimeout))
    }

    lemma FinishesLive(cfg: Config, id: string, text: string, now: int, next: Store)
      requires id in sessions && next == With(id, sessions[id].Finished(text, now + cfg.idleTimeout))
      ensures FinishPrompt(cfg, id, text, now) == next
    { }

    function FailPrompt(cfg: Config, id: string, now: int): Store {
      if id !in sessions then this else With(id, sessions[id].Failed(now + cfg.idleTimeout))
    }

    lemma FailsLive(cfg: Config, id: string, now: int, next: Store)
      requires id in sessions && next == With(id, sessions[id].Failed(now + cfg.idleTimeout))
      ensures FailPrompt(cfg, id, now) == next
    { }

    function SetGenCancel(id: string, g: Gen): (Store, Option<Error>) {
      if id !in sessions then (this, Some(NotFound))
      else (With(id, sessions[id].(genCancel := Some(g))), None)
    }

    function CancelGeneration(id: string): (Store, Option<Error>) {
      if id !in sessions then (this, Some(NotFound))
      else
        var s := sessions[id];
        if s.genCancel.None? then (this, Some(NotActive))
        else (With(id, s.(genCancel := None)).(fired := fired + Fire(s.genCancel)), None)
    }

    function Destroy(id: string): Store {
      if id !in sessions then this
      else
        var s := sessions[id];
        Store(sessions - {id}, byCode - {s.pairCode}, fired + Fire(s.genCancel))
    }

    function EndByControlToken(id: string, token: string): (Store, Option<Error>) {
      if id !in sessions then (this, Some(NotFound))
      else if token == "" || sessions[id].controlToken != token then (this, Some(Unauthorized))
      else (Destroy(id), None)
    }

    /** The cancel functions held by the sessions in `ids`. */
    ghost function CancelsOf(ids: set<string>): multiset<Gen>
      requires ids <= sessions.Keys
    {
      if ids == {} then multiset{}
      else
        var id :| id in ids;
        CancelsOf(ids - {id}) + Fire(sessions[id].genCancel)
    }

    /** Destroys every session in `ids` at once. */
    ghost function DestroyAll(ids: set<string>): Store
      requires ids <= sessions.Keys
    {
      Store(sessions - ids, Unlist(ids), fired + CancelsOf(ids))
    }

    function ExpiredAt(now: int): set<string> {
      set id | id in sessions && Expired(sessions[id], now)
    }

    ghost function Sweep(now: int): Store {
      DestroyAll(ExpiredAt(now))
    }

    /** A sweep half done: what had expired is gone, except what is still pending. */
    ghost predicate HalfSwept(gone: set<string>, pending: set<string>, now: int) {
      && gone + pending <= sessions.Keys && gone !! pending
      && ExpiredAt(now) <= gone + pending
      && forall id | id in gone :: Expired(sessions[id], now)
    }

    /** Every index entry points to a live session carrying that code. */
    predicate Sound() {
      forall c | c in byCode :: byCode[c] in sessions && sessions[byCode[c]].pairCode == c
    }

    /** Every live session can be found through its code. */
    predicate Complete() {
      forall id | id in sessions :: sessions[id].pairCode in byCode && byCode[sessions[id].pairCode] == id
    }

    predicate DistinctCodes() {
      forall a, b | a in sessions && b in sessions && sessions[a].pairCode == sessions[b].pairCode :: a == b
    }

    /** The session CancelsOf takes first. */
    lemma CancelsOfSome(ids: set<string>) returns (id: string)
      requires ids <= sessions.Keys && ids != {}
      ensures id in ids && CancelsOf(ids) == CancelsOf(ids - {id}) + Fire(sessions[id].genCancel)
    {
      id :| id in ids && CancelsOf(ids) == CancelsOf(ids - {id}) + Fire(sessions[id].genCancel);
    }

    lemma SwapLast(a: multiset<Gen>, b: multiset<Gen>, c: multiset<Gen>)
      ensures a + b + c == a + c + b
    { }

    /** CancelsOf does not depend on the order in which sessions are visited. */
    lemma {:induction false} CancelsOfAny(ids: set<string>, x: string)
      requires ids <= sessions.Keys && x in ids
      ensures CancelsOf(ids) == CancelsOf(ids - {x}) + Fire(sessions[x].genCancel)
    {
      var id := CancelsOfSome(ids);
      if id != x {
        CancelsOfAny(ids - {id}, x);
        CancelsOfAny(ids - {x}, id);
        assert ids - {id} - {x} == ids - {x} - {id};
        SwapLast(CancelsOf(ids - {id} - {x}), Fire(sessions[x].genCancel), Fire(sessions[id].genCancel));
      }
    }

    /** The index once the codes of the sessions in `ids` are deleted from it. */
    ghost function Unlist(ids: set<string>): map<string, string>
      requires ids <= sessions.Keys
    {
      byCode - (set id | id in ids :: sessions[id].pairCode)
    }

    lemma UnlistOneMore(ids: set<string>, x: string)
      requires ids <= sessions.Keys && x in sessions
      ensures Unlist(ids) - {sessions[x].pairCode} == Unlist(ids + {x})
    {
      var codes := set id | id in ids :: sessions[id].pairCode;
      assert (set id | id in ids + {x} :: sessions[id].pairCode) == codes + {sessions[x].pairCode};
    }

    lemma SumIsAssociative(a: multiset<Gen>, b: multiset<Gen>, c: multiset<Gen>)
      ensures a + b + c == a + (b + c)
    { }

    lemma CancelOneMore(ids: set<string>, x: string)
      requires ids <= sessions.Keys && x in sessions && x !in ids
      ensures CancelsOf(ids) + Fire(sessions[x].genCancel) == CancelsOf(ids + {x})
    {
      CancelsOfAny(ids + {x}, x);
      assert ids + {x} - {x} == ids;
    }

    /** Destroying one more session extends a bulk destruction. */
    lemma DestroyAllThenOne(ids: set<string>, x: string)
      requires ids <= sessions.Keys && x in sessions && x !in ids
      ensures DestroyAll(ids).Destroy(x) == DestroyAll(ids + {x})
    {
      var part, code, fire := DestroyAll(ids), sessions[x].pairCode, Fire(sessions[x].genCancel);
      assert part.Destroy(x) == Store(part.sessions - {x}, part.byCode - {code}, part.fired + fire);
      assert part.sessions - {x} == sessions - (ids + {x});
      UnlistOneMore(ids, x);
      CancelOneMore(ids, x);
      SumIsAssociative(fired, CancelsOf(ids), fire);
    }

    lemma SweepStarts(now: int)
      ensures HalfSwept({}, sessions.Keys, now) && DestroyAll({}) == this
    {
      DestroyNobody({});
    }

    lemma SweepEnds(gone: set<string>, now: int)
      requires HalfSwept(gone, {}, now)
      ensures gone == ExpiredAt(now)
    { }

    /** One step of a sweep. */
    lemma OneLessPending(gone: set<string>, pending: set<string>, now: int, x: string)
      requires HalfSwept(gone, pending, now) && x in pending
      ensures HalfSwept(if Expired(sessions[x], now) then gone + {x} else gone, pending - {x}, now)
    { }

    /** A sweep leaves every ACTIVE session, the WAITING ones up to their pairing
        expiry and the APPROVED ones up to their idle deadline, all untouched; and
        sweeping again at the same clock reading changes nothing. */
    lemma SweepSurvivors(now: int)
      ensures Survivors(this, now, Sweep(now))
      ensures Sweep(now).Sweep(now) == Sweep(now)
      ensures Sweep(now).Sweep(now) == Sweep(now)
    {
      Sweep(now).DestroyNobody(Sweep(now).ExpiredAt(now));
    }

    /** Sessions without a registered cancel function fire nothing. */
    lemma {:induction false} NothingToCancel(ids: set<string>)
      requires ids <= sessions.Keys && forall id | id in ids :: sessions[id].genCancel == None
      ensures CancelsOf(ids) == multiset{}
    {
      if ids != {} {
        var id :| id in ids;
        CancelsOfAny(ids, id);
        NothingToCancel(ids - {id});
      }
    }

    lemma DestroyNobody(ids: set<string>)
      requires ids == {}
      ensures DestroyAll(ids) == this
    {
      assert Unlist(ids) == byCode by { assert forall c :: c in Unlist(ids) <==> c in byCode; }
    }
  }

  /** `next` has the sessions of `st` that are still wanted at time `now`. */
  predicate Survivors(st: Store, now: int, next: Store) {
    && (forall id | id in next.sessions :: id in st.sessions && next.sessions[id] == st.sessions[id])
    && (forall id | id in st.sessions ::
          var s := st.sessions[id];
          id in next.sessions <==>
            || s.state == Active || s.state == Destroyed
            || (s.state == Waiting && now <= s.pairExpiry)
            || (s.state == Approved && now <= s.idleDeadline))
  }

  /** What an approval of session `id` of `st` comes to: `next` and the result `r`. */
  predicate Approval(st: Store, id: string, settings: GenerationSettings, token: Option<string>, now: int,
                     next: Store, r: Result<string, Error>)
    requires id in st.sessions
  {
    var s := st.sessions[id];
    if s.state == Waiting && now <= s.pairExpiry && settings.Valid() && token.Some? then
      && r == Ok(id)
      && next == st.With(id, s.(state := Approved, settings := settings, controlToken := token.value))
    else
      && next == st
      && r == Err(if now > s.pairExpiry then PairingExpired
                  else if s.state != Waiting then AlreadyApproved
                  else if !settings.Valid() then InvalidSettings
                  else RandomFailure)
  }

  /** The index is never larger than the set of sessions, even after collisions. */
  lemma IndexIsNoLarger(st: Store)
    requires st.Sound()
    ensures |st.byCode| <= |st.sessions|
  {
    var codes := map id | id in st.sessions :: st.sessions[id].pairCode;
    assert st.byCode.Keys <= codes.Values by {
      forall c | c in st.byCode ensures c in codes.Values { assert codes[st.byCode[c]] == c; }
    }
    ImageIsNoLarger(codes, st.byCode.Keys);
    assert codes.Keys == st.sessions.Keys;
  }

  /** Creating a session keeps the index complete exactly when no live session
      already carries the drawn code. */
  lemma CreateKeepsCompleteIff(st: Store, cfg: Config, d: Draw, now: int)
    requires st.Sound() && st.Complete() && d.id !in st.sessions
    requires |st.sessions| < cfg.maxSessions
    ensures st.Create(cfg, Some(d), now).0.Complete()
      <==> forall id | id in st.sessions :: st.sessions[id].pairCode != d.code
  {
    var st' := st.Create(cfg, Some(d), now).0;
    forall id | id in st.sessions && st.sessions[id].pairCode == d.code ensures !st'.Complete() {
      assert st'.sessions[id].pairCode == d.code && st'.byCode[d.code] == d.id;
    }
  }

  /** Destruction never leaves an index entry behind, even after a collision. */
  lemma DestroyKeepsSound(st: Store, id: string)
    requires st.Sound()
    ensures st.Destroy(id).Sound()
  { }

  lemma SweepKeepsSound(st: Store, now: int)
    requires st.Sound()
    ensures st.Sweep(now).Sound()
  { }

  /** With distinct live codes, destroying sessions never loses another one from the index. */
  lemma DestroyKeepsComplete(st: Store, ids: set<string>)
    requires st.Complete() && ids <= st.sessions.Keys
    ensures st.DestroyAll(ids).Complete()
  {
    forall id | id in st.DestroyAll(ids).sessions
      ensures st.sessions[id].pairCode in st.DestroyAll(ids).byCode
    {
      forall gone | gone in ids ensures st.sessions[gone].pairCode != st.sessions[id].pairCode { }
    }
  }

  /** A sound and complete index agrees with a linear scan for the code. */
  lemma IndexAgreesWithScan(st: Store, code: string)
    requires st.Sound()
    ensures st.Complete() ==> st.DistinctCodes()
    ensures st.Complete() ==>
      (set id | id in st.sessions && st.sessions[id].pairCode == code)
      == if code in st.byCode then {st.byCode[code]} else {}
  { }

  /** Two live sessions drawn with the same code: the first can no longer be
      approved by code, and destroying it also unlists the second. */
  lemma CollisionLosesSessions(cfg: Config, now: int)
    requires cfg.maxSessions >= 2
    ensures
      var st1 := Store(map[], map[], multiset{}).Create(cfg, Some(Draw("a", "t1", "472913")), now).0;
      var st2 := st1.Create(cfg, Some(Draw("b", "t2", "472913")), now).0;
      && st2.sessions.Keys == {"a", "b"} && st2.Sound() && st2.byCode == map["472913" := "b"]
      && st2.Destroy("a").sessions.Keys == {"b"} && st2.Destroy("a").byCode == map[]
  {
    var st1 := Store(map[], map[], multiset{}).Create(cfg, Some(Draw("a", "t1", "472913")), now).0;
    assert st1.sessions.Keys == {"a"} && |st1.sessions| == 1;
    assert "a" != "b";
  }
}
