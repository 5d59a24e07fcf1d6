/** The gateway's session manager as the heap objects it is: two maps over shared,
    mutable Session objects (internal/session/manager.go, internal/session/session.go).
    Every method holds the manager's lock for its whole body, so each is one
    atomic step; each is proved to do to the abstract Store exactly what the
    Store operation of the same name does. */
module Manager {
  import opened Base
  import opened Settings
  import opened Store

  const SECOND := 1_000_000_000

  class Session {
    const id: string
    var state: State
    var pairToken: string
    var pairCode: string
    const pairExpiry: int
    var idleDeadline: int
    /** The history is the slice `messages[..count]`; its backing array may be longer. */
    var messages: array<Message>
    var count: nat
    ghost var history: seq<Message>
    var controlToken: string
    var settings: GenerationSettings
    var genCancel: Option<Gen>

    constructor (cfg: Config, d: Draw, now: int)
      ensures id == d.id && fresh(messages) && messages.Length == 0 && SliceOk() && View() == NewSession(cfg, d, now)
    {
      this.id := d.id;
      this.state := Waiting;
      this.pairToken := d.token;
      this.pairCode := d.code;
      this.pairExpiry := now + cfg.pairTimeout;
      this.idleDeadline := now + cfg.idleTimeout;
      this.messages := new Message[0];
      this.count, this.history := 0, [];
      this.controlToken := "";
      this.settings := ZERO;
      this.genCancel := None;
    }

    ghost predicate SliceOk()
      reads this, messages
    {
      count <= messages.Length && messages[..count] == history
    }

    ghost function View(): SessionView
      reads this
    {
      SessionView(state, pairToken, pairCode, pairExpiry, idleDeadline, history, controlToken, settings, genCancel)
    }

    /** The history is one longer, in its old backing array if that had room,
        otherwise in a new one. */
    twostate predicate Extended()
      reads this
    {
      && count == old(count) + 1
      && if old(count < messages.Length) then messages == old(messages) else fresh(messages)
    }

    /** append(s.History, m): in place while the backing array has room, otherwise
        into a larger copy. */
    method Append(m: Message)
      requires SliceOk()
      modifies this`messages, this`count, this`history, messages
      ensures SliceOk() && history == old(history) + [m] && Extended()
    {
      if count == messages.Length {
        var larger := new Message[2 * count + 1];
        forall k | 0 <= k < count {
          larger[k] := messages[k];
        }
        messages := larger;
      }
      messages[count] := m;
      count, history := count + 1, history + [m];
    }

    /** What approve writes to the session. */
    method Grant(token: string, chosen: GenerationSettings)
      requires SliceOk()
      modifies this
      ensures SliceOk() && View() == old(View()).Granted(token, chosen)
      ensures messages == old(messages)
    {
      controlToken := token;
      settings := chosen;
      state := Approved;
    }

    /** What PreparePrompt writes to the session. */
    method Ask(content: string, deadline: int)
      requires SliceOk()
      modifies this, messages
      ensures SliceOk() && View() == old(View()).Asked(content, deadline)
      ensures Extended()
    {
      Append(Message(User, content));
      state := Active;
      idleDeadline := deadline;
    }

    /** What FinishPrompt writes to the session. */
    method Finish(text: string, deadline: int)
      requires SliceOk()
      modifies this, messages
      ensures SliceOk() && View() == old(View()).Finished(text, deadline)
      ensures messages == old(messages) || fresh(messages)
    {
      if text != "" {
        Append(Message(Assistant, text));
      }
      state := Approved;
      idleDeadline := deadline;
      genCancel := None;
    }

    /** What FailPrompt writes to the session: it reslices the history, so the last
        message stays in the backing array. */
    method Fail(deadline: int)
      requires SliceOk()
      modifies this
      ensures SliceOk() && View() == old(View()).Failed(deadline)
      ensures messages == old(messages)
    {
      if count > 0 && messages[count - 1].role == User {
        count, history := count - 1, history[..count - 1];
      }
      state := Approved;
      idleDeadline := deadline;
      genCancel := None;
    }

    /** A copy of the history in an array of its own. */
    method Copy() returns (copy: array<Message>)
      requires SliceOk()
      ensures fresh(copy) && copy[..] == history
    {
      copy := new Message[count];
      forall k | 0 <= k < count {
        copy[k] := messages[k];
      }
    }

    /** Nothing secret or conversational survives in a destroyed session. */
    ghost predicate Scrubbed()
      reads this
    {
      && state == Destroyed && history == [] && messages.Length == 0 && controlToken == "" && settings == ZERO
      && pairToken == "" && pairCode == "" && genCancel == None
    }

    method Scrub()
      modifies this
      ensures Scrubbed() && fresh(messages)
    {
      state := Destroyed;
      messages, count, history := new Message[0], 0, [];
      controlToken := "";
      settings := ZERO;
      pairToken := "";
      genCancel := None;
      pairCode := "";
    }
  }

  class Manager {
    const cfg: Config
    var sessions: map<string, Session>
    var byPairCode: map<string, Session>
    /** The cancel functions invoked so far. */
    ghost var fired: multiset<Gen>
    /** Every session object this manager has ever created. */
    ghost var issued: set<Session>

    /** Every object this manager's methods can write to, now or later. */
    ghost var repr: set<object>
    /** The arrays handed out as copies of a history. */
    ghost var copies: set<array<Message>>

    /** The manager still reaches the object `s`. */
    ghost predicate Holds(s: Session)
      reads this
    {
      s.id in sessions && sessions[s.id] == s
    }

    ghost predicate Valid()
      reads this, repr
    {
      issued <= repr && MapsOk() && sessions.Values <= repr && SlicesOk()
    }

    /** Every object ever created is either live, or scrubbed and out of reach: no
        method can write to it again. */
    ghost predicate MapsOk()
      reads this, issued
    {
      && (forall i | i in sessions :: sessions[i] in issued && sessions[i].id == i)
      && (forall c | c in byPairCode :: byPairCode[c] in issued && Holds(byPairCode[c]) && byPairCode[c].pairCode == c)
      && (forall s | s in issued :: if Holds(s) then s.state != Destroyed else s.Scrubbed())
    }

    /** No two live histories share a backing array, and none lives in an array
        that was handed out as a copy. */
    ghost predicate SlicesOk()
      requires sessions.Values <= repr
      reads this, repr
    {
      && (forall i | i in sessions :: sessions[i].messages in repr && sessions[i].SliceOk())
      && (forall i, j | i in sessions && j in sessions && i != j :: sessions[i].messages != sessions[j].messages)
      && (forall a | a in copies :: a !in repr)
    }

    ghost function Abs(): Store
      reads this`sessions, this`byPairCode, this`fired, sessions.Values, byPairCode.Values
    {
      Store(Views(), Index(), fired)
    }

    ghost function Views(): map<string, SessionView>
      reads this`sessions, sessions.Values
    {
      map i | i in sessions :: sessions[i].View()
    }

    ghost function Index(): map<string, string>
      reads this`byPairCode, byPairCode.Values
    {
      map c | c in byPairCode :: byPairCode[c].id
    }

    /** The object a method on session `i` may change. */
    ghost function Live(i: string): set<Session>
      reads this
    {
      if i in sessions then {sessions[i]} else {}
    }

    /** The backing array an append to the history of session `i` may write to. */
    ghost function Backing(i: string): set<array<Message>>
      reads this, sessions.Values
    {
      if i in sessions then {sessions[i].messages} else {}
    }

    /** No array handed out before has changed, and none has been taken back. */
    twostate predicate CopiesKept()
      reads this, copies
    {
      old(copies) <= copies && forall a | a in old(copies) :: unchanged(a)
    }

    /** What the manager can write to has grown by new objects only. */
    twostate predicate OnlyNew()
      reads this
    {
      old(repr) <= repr && fresh(repr - old(repr))
    }

    constructor (pairTimeout: int, idleTimeout: int, maxSessions: int)
      ensures Valid() && Abs() == Store(map[], map[], multiset{}) && repr == {} && copies == {}
      ensures cfg.pairTimeout == (if pairTimeout <= 0 then 120 * SECOND else pairTimeout)
      ensures cfg.idleTimeout == (if idleTimeout <= 0 then 300 * SECOND else idleTimeout)
      ensures cfg.maxSessions == (if maxSessions <= 0 then 8 else maxSessions)
    {
      cfg := Config(if pairTimeout <= 0 then 120 * SECOND else pairTimeout,
                    if idleTimeout <= 0 then 300 * SECOND else idleTimeout,
                    if maxSessions <= 0 then 8 else maxSessions);
      sessions, byPairCode := map[], map[];
      fired, issued, repr, copies := multiset{}, {}, {}, {};
    }

    lemma AbsIsSound()
      requires Valid()
      ensures Abs().Sound() && Abs().sessions.Keys == sessions.Keys && Abs().byCode.Keys == byPairCode.Keys
      ensures |Abs().sessions| == |sessions|
    {
      assert Abs().sessions.Keys == sessions.Keys;
    }

    /** A method has written to one live session, keeping its code; if it has given
        the history a new backing array or handed out copies, those are fresh. */
    twostate predicate Written(i: string)
      reads this, issued
    {
      && old(MapsOk()) && i in sessions && issued == old(issued)
      && sessions == old(sessions) && byPairCode == old(byPairCode)
      && (forall o | o in issued && o != sessions[i] :: unchanged(o))
      && sessions[i] in issued
      && sessions[i].pairCode == old(sessions[i].pairCode) && sessions[i].state != Destroyed
    }

    twostate predicate SliceWritten(i: string)
      requires Written(i) && sessions.Values <= old(repr)
      reads this, repr, issued
    {
      && old(SlicesOk()) && copies == old(copies)
      && repr == old(repr) + {sessions[i].messages} && sessions[i].SliceOk()
      && (sessions[i].messages == old(sessions[i].messages) || fresh(sessions[i].messages))
      && (forall j | j in sessions && j != i :: unchanged(sessions[j].messages))
    }

    /** Such a method, if it invokes no cancel function, changes only that
        session's entry of the abstract store. */
    twostate lemma OneSessionWritten(i: string)
      requires Written(i) && issued <= old(repr) && sessions.Values <= old(repr)
      requires SliceWritten(i) && fired == old(fired)
      ensures Valid() && OnlyNew()
      ensures i in old(Abs()).sessions && old(Abs()).sessions[i] == old(sessions[i].View())
      ensures Abs() == old(Abs()).With(i, sessions[i].View())
    {
      WrittenSlices(i);
      WrittenViews(i);
    }

    twostate lemma WrittenSlices(i: string)
      requires Written(i) && issued <= old(repr) && sessions.Values <= old(repr) && SliceWritten(i)
      ensures Valid() && OnlyNew()
    {
      forall j | j in sessions && j != i ensures sessions[j].messages in repr && sessions[j].SliceOk() {
        assert unchanged(sessions[j]) && unchanged(sessions[j].messages);
      }
    }

    /** Such a method changes only that session's entry of the abstract store. */
    twostate lemma WrittenViews(i: string)
      requires Written(i)
      ensures i in old(Abs()).sessions && old(Abs()).sessions[i] == old(sessions[i].View())
      ensures Abs() == old(Abs()).With(i, sessions[i].View()).(fired := fired)
    {
      forall j | j in sessions && j != i ensures sessions[j].View() == old(sessions[j].View()) {
        assert unchanged(sessions[j]);
      }
      assert Views() == old(Views())[i := sessions[i].View()];
      assert Index() == old(Index());
    }

    /** The manager right after a fresh session object went into both maps. */
    twostate predicate JustAdded(new s: Session)
      reads this, issued
    {
      && old(MapsOk()) && fresh(s) && issued == old(issued) + {s} && s.state != Destroyed
      && sessions == old(sessions)[s.id := s] && s.id !in old(sessions)
      && byPairCode == old(byPairCode)[s.pairCode := s]
      && forall o | o in old(issued) :: unchanged(o)
    }

    twostate predicate SliceAdded(new s: Session)
      requires JustAdded(s) && old(issued <= repr && sessions.Values <= repr)
      reads this, repr, issued
    {
      && old(SlicesOk()) && fresh(s.messages) && copies == old(copies)
      && repr == old(repr) + {s, s.messages} && s.SliceOk()
      && forall i | i in old(sessions) :: unchanged(old(sessions)[i].messages)
    }

    twostate lemma AddedIsValid(new s: Session)
      requires JustAdded(s) && old(issued <= repr && sessions.Values <= repr) && SliceAdded(s)
      ensures Valid() && OnlyNew()
    {
      AddedMaps(s);
      forall i | i in old(sessions) ensures sessions[i].messages in repr && sessions[i].SliceOk() {
        assert unchanged(sessions[i]);
      }
    }

    twostate lemma AddedMaps(new s: Session)
      requires JustAdded(s)
      ensures MapsOk()
    {
      forall o | o in old(issued) ensures Holds(o) == old(Holds(o)) {
        assert unchanged(o);
      }
    }

    twostate lemma AddedViews(new s: Session)
      requires JustAdded(s)
      ensures Views() == old(Views())[s.id := s.View()]
    {
      forall j | j in old(sessions) ensures sessions[j].View() == old(sessions[j].View()) {
        assert unchanged(sessions[j]);
      }
    }

    twostate lemma AddedIndex(new s: Session)
      requires JustAdded(s)
      ensures Index() == old(Index())[s.pairCode := s.id]
    {
      forall c | c in old(byPairCode) && c != s.pairCode ensures byPairCode[c] == old(byPairCode[c]) { }
      assert Index().Keys == byPairCode.Keys == old(byPairCode.Keys) + {s.pairCode};
    }

    /** The manager right after a session object was scrubbed and dropped from both maps. */
    twostate predicate JustRemoved(s: Session)
      reads this, issued, s
    {
      && old(MapsOk()) && old(Holds(s)) && s.Scrubbed() && issued == old(issued)
      && sessions == old(sessions) - {s.id} && byPairCode == old(byPairCode) - {old(s.pairCode)}
      && forall o | o in issued && o != s :: unchanged(o)
    }

    twostate lemma RemovedIsValid(s: Session)
      requires JustRemoved(s) && old(issued <= repr && sessions.Values <= repr && SlicesOk())
      requires repr == old(repr) && copies == old(copies)
      requires forall i | i in sessions :: unchanged(sessions[i].messages)
      ensures Valid()
    {
      RemovedMaps(s);
      forall i | i in sessions ensures sessions[i].messages in repr && sessions[i].SliceOk() {
        assert unchanged(sessions[i]);
      }
    }

    twostate lemma RemovedMaps(s: Session)
      requires JustRemoved(s)
      ensures MapsOk()
    {
      forall o | o in issued && o != s ensures Holds(o) == old(Holds(o)) {
        assert unchanged(o);
      }
    }

    twostate lemma RemovedViews(s: Session)
      requires JustRemoved(s)
      ensures Views() == old(Views()) - {s.id}
    {
      forall j | j in sessions ensures sessions[j].View() == old(sessions[j].View()) {
        assert unchanged(sessions[j]);
      }
    }

    twostate lemma RemovedIndex(s: Session)
      requires JustRemoved(s)
      ensures Index() == old(Index()) - {old(s.pairCode)}
    {
    }

    /** An object out of reach stays out of reach. */
    twostate predicate NoneReturns()
      reads this
    {
      forall o | o in old(issued) && Holds(o) :: old(Holds(o))
    }

    twostate lemma LiveBefore(i: string)
      requires MapsOk() && issued == old(issued) && NoneReturns()
      ensures Live(i) <= old(sessions.Values)
    { }

    /** What writes to no object of the manager changes nothing about it. */
    twostate lemma Untouched()
      requires old(Valid()) && unchanged(this) && forall o | o in repr :: unchanged(o)
      ensures Valid() && Abs() == old(Abs())
    { }

    /** `draw` holds the random values drawn, if all the draws succeed; ids are
        long enough to be taken as fresh, pairing codes are not. */
    method Create(draw: Option<Draw>, now: int) returns (r: Result<Session, Error>)
      requires Valid()
      requires draw.Some? ==> draw.value.id !in sessions
      modifies this
      ensures Valid() && copies == old(copies) && OnlyNew() && old(issued) <= issued && NoneReturns()
      ensures Abs() == old(Abs()).Create(cfg, draw, now).0
      ensures r.Err? ==> old(Abs()).Create(cfg, draw, now).1 == Err(r.error)
      ensures r.Ok? ==> old(Abs()).Create(cfg, draw, now).1 == Ok(r.value.id) && fresh(r.value) && Holds(r.value)
      ensures r.Ok? <==> |old(sessions)| < cfg.maxSessions && draw.Some?
      ensures r.Err? ==> r.error == (if |old(sessions)| < cfg.maxSessions then RandomFailure else MaxSessions)
      ensures r.Err? ==> Abs() == old(Abs())
      ensures r.Ok? ==>
        r.value.View() == SessionView(Waiting, draw.value.token, draw.value.code, now + cfg.pairTimeout,
                                      now + cfg.idleTimeout, [], "", ZERO, None)
    {
      assert Views().Keys == sessions.Keys;
      if |sessions| >= cfg.maxSessions {
        return Err(MaxSessions);
      }
      if draw.None? {
        return Err(RandomFailure);
      }
      var s := Insert(draw.value, now);
      return Ok(s);
    }

    /** The second half of Create, once the draws have succeeded. */
    method Insert(d: Draw, now: int) returns (s: Session)
      requires Valid() && d.id !in sessions
      modifies this
      ensures Valid() && copies == old(copies) && OnlyNew() && old(issued) <= issued && NoneReturns()
      ensures Abs() == old(Abs()).Insert(cfg, d, now)
      ensures s.id == d.id && fresh(s) && Holds(s) && s.View() == NewSession(cfg, d, now)
    {
      s := new Session(cfg, d, now);
      ghost var view := s.View();
      issued, repr := issued + {s}, repr + {s, s.messages};
      sessions := sessions[d.id := s];
      byPairCode := byPairCode[d.code := s];
      assert s.View() == view && s.pairCode == d.code;
      AddedIsValid(s);
      AddedViews(s);
      AddedIndex(s);
    }

    /** Nothing the manager writes to has changed. */
    twostate predicate SameObjects()
      reads this, issued, sessions.Values, set i | i in sessions :: sessions[i].messages
    {
      && sessions == old(sessions) && byPairCode == old(byPairCode) && fired == old(fired)
      && issued == old(issued) && repr == old(repr)
      && (forall o | o in issued :: unchanged(o))
      && (forall i | i in sessions :: sessions[i] in issued && unchanged(sessions[i].messages))
    }

    twostate lemma HandedOutIsValid(new copy: array<Message>)
      requires old(Valid()) && SameObjects() && fresh(copy) && copies == old(copies) + {copy}
      ensures Valid()
    {
      forall i | i in sessions ensures sessions[i].SliceOk() {
        assert unchanged(sessions[i]) && unchanged(sessions[i].messages);
      }
    }

    twostate lemma HandedOutAbs()
      requires old(Valid()) && SameObjects()
      ensures Abs() == old(Abs())
    {
      assert Views() == old(Views());
    }

    /** Hands out a copy of the history of `s`. */
    method HandOut(s: Session) returns (copy: array<Message>)
      requires Valid() && Holds(s)
      modifies this`copies
      ensures Valid() && CopiesKept() && OnlyNew()
      ensures fresh(copy) && copies == old(copies) + {copy} && copy[..] == s.history
      ensures Abs() == old(Abs())
    {
      copy := s.Copy();
      copies := copies + {copy};
      HandedOutIsValid(copy);
      HandedOutAbs();
    }

    /** A copy of a history; nothing for unknown sessions. */
    method SessionHistory(i: string) returns (out: Option<array<Message>>)
      requires Valid()
      modifies this`copies
      ensures Valid() && CopiesKept() && OnlyNew() && Abs() == old(Abs())
      ensures out.Some? <==> i in Abs().sessions
      ensures out.Some? ==> fresh(out.value) && out.value in copies && out.value[..] == Abs().sessions[i].history
    {
      if i !in sessions {
        return None;
      }
      var copy := HandOut(sessions[i]);
      return Some(copy);
    }

    method Status(i: string) returns (r: Result<State, Error>)
      requires Valid()
      ensures r == (if i in Abs().sessions then Ok(Abs().sessions[i].state) else Err(NotFound))
    {
      if i !in sessions {
        return Err(NotFound);
      }
      return Ok(sessions[i].state);
    }

    method SessionSettings(i: string) returns (r: Result<GenerationSettings, Error>)
      requires Valid()
      ensures r == (if i in Abs().sessions then Ok(Abs().sessions[i].settings) else Err(NotFound))
    {
      if i !in sessions {
        return Err(NotFound);
      }
      return Ok(sessions[i].settings);
    }

    method ControlToken(i: string) returns (r: Result<string, Error>)
      requires Valid()
      ensures r == (if i in Abs().sessions then Ok(Abs().sessions[i].controlToken) else Err(NotFound))
    {
      if i !in sessions {
        return Err(NotFound);
      }
      return Ok(sessions[i].controlToken);
    }

    /** Scans the sessions in an arbitrary order for one holding `pairToken`. */
    method FindByToken(pairToken: string) returns (s: Session?)
      requires Valid()
      ensures s == null ==> Abs().HoldersOf(pairToken) == {}
      ensures s != null ==> s.id in sessions && sessions[s.id] == s && s.id in Abs().HoldersOf(pairToken)
    {
      var pending := sessions.Keys;
      while pending != {}
        invariant pending <= sessions.Keys
        invariant forall i | i in sessions && i !in pending :: sessions[i].pairToken != pairToken
        decreases pending
      {
        var i :| i in pending;
        if sessions[i].pairToken == pairToken {
          return sessions[i];
        }
        pending := pending - {i};
      }
      return null;
    }

    method ApproveByToken(pairToken: string, settings: GenerationSettings, token: Option<string>, now: int)
        returns (r: Result<string, Error>)
      requires Valid()
      modifies sessions.Values
      ensures Valid() && copies == old(copies) && repr == old(repr)
      ensures old(Abs()).HoldersOf(pairToken) == {} ==> r == Err(NotFound) && Abs() == old(Abs())
      ensures old(Abs()).HoldersOf(pairToken) != {} ==>
        exists pick :: pick in old(Abs()).HoldersOf(pairToken)
                       && (Abs(), r) == old(Abs()).ApproveByToken(Some(pick), settings, token, now)
                       && Approval(old(Abs()), pick, settings, token, now, Abs(), r)
    {
      var s := FindByToken(pairToken);
      Untouched();
      if s == null {
        return Err(NotFound);
      }
      r := Approve(s, settings, token, now);
      assert s.id in old(Abs()).HoldersOf(pairToken);
    }

    method ApproveByCode(code: string, settings: GenerationSettings, token: Option<string>, now: int)
        returns (r: Result<string, Error>)
      requires Valid()
      modifies sessions.Values
      ensures Valid() && copies == old(copies) && repr == old(repr) && old(Abs()).Sound()
      ensures (Abs(), r) == old(Abs()).ApproveByCode(code, settings, token, now)
      ensures code in old(Abs()).byCode ==>
        Approval(old(Abs()), old(Abs()).byCode[code], settings, token, now, Abs(), r)
      ensures code !in old(Abs()).byCode ==> r == Err(NotFound) && Abs() == old(Abs())
    {
      AbsIsSound();
      if code !in byPairCode {
        return Err(NotFound);
      }
      r := Approve(byPairCode[code], settings, token, now);
    }

    method Approve(s: Session, settings: GenerationSettings, token: Option<string>, now: int)
        returns (r: Result<string, Error>)
      requires Valid() && s.id in sessions && sessions[s.id] == s
      modifies s
      ensures Valid() && copies == old(copies) && repr == old(repr)
      ensures s.id in old(Abs()).sessions && (Abs(), r) == old(Abs()).Approve(s.id, settings, token, now)
      ensures Approval(old(Abs()), s.id, settings, token, now, Abs(), r)
    {
      if now > s.pairExpiry {
        return Err(PairingExpired);
      }
      if s.state != Waiting {
        return Err(AlreadyApproved);
      }
      if !settings.Valid() {
        return Err(InvalidSettings);
      }
      if token.None? {
        return Err(RandomFailure);
      }
      Write(s.id, token.value, settings);
      return Ok(s.id);
    }

    /** The writes of approve. */
    method Write(i: string, token: string, settings: GenerationSettings)
      requires Valid() && i in sessions
      modifies sessions[i]
      ensures Valid() && copies == old(copies) && repr == old(repr)
      ensures i in old(Abs()).sessions && old(Abs()).sessions[i] == old(sessions[i].View())
      ensures Abs() == old(Abs()).With(i, old(sessions[i].View()).Granted(token, settings))
    {
      sessions[i].Grant(token, settings);
      OneSessionWritten(i);
    }

    method EndByControlToken(i: string, token: string) returns (err: Option<Error>)
      requires Valid()
      modifies this, Live(i)
      ensures Valid() && copies == old(copies) && repr == old(repr) && issued == old(issued) && NoneReturns()
      ensures (Abs(), err) == old(Abs()).EndByControlToken(i, token)
      ensures err == if i !in old(sessions) then Some(NotFound)
                     else if token != "" && old(sessions[i].controlToken) == token then None
                     else Some(Unauthorized)
      ensures if err.None? then i !in sessions else Abs() == old(Abs())
    {
      if i !in sessions {
        return Some(NotFound);
      }
      var want := sessions[i].controlToken;
      if token == "" || want != token {
        return Some(Unauthorized);
      }
      Destroy(i);
      return None;
    }

    /** Appends to the history and hands out a copy of it. */
    method PreparePrompt(i: string, content: string, now: int) returns (r: Result<array<Message>, Error>)
      requires Valid()
      modifies this`copies, this`repr, Live(i), Backing(i)
      ensures Valid() && CopiesKept() && OnlyNew()
      ensures Abs() == old(Abs()).PreparePrompt(cfg, i, content, now).0
      ensures r.Err? ==> old(Abs()).PreparePrompt(cfg, i, content, now).1 == Err(r.error)
      ensures r.Ok? ==> old(Abs()).PreparePrompt(cfg, i, content, now).1 == Ok(r.value[..])
      ensures r.Ok? ==> fresh(r.value) && r.value in copies
      ensures r.Ok? <==> i in old(sessions) && old(sessions[i].state) == Approved
      ensures r.Err? ==> r.error == (if i in old(sessions) then NotApproved else NotFound) && Abs() == old(Abs())
    {
      if i !in sessions {
        return Err(NotFound);
      }
      var s := sessions[i];
      if s.state != Approved {
        return Err(NotApproved);
      }
      assert s.id == i;
      ghost var next := Abs().With(s.id, Abs().sessions[s.id].Asked(content, now + cfg.idleTimeout));
      Abs().PreparesApproved(cfg, s.id, content, now, next);
      var copy := Prepare(s, content, now + cfg.idleTimeout);
      return Ok(copy);
    }

    /** PreparePrompt once it has been admitted. */
    method Prepare(s: Session, content: string, deadline: int) returns (copy: array<Message>)
      requires Valid() && Holds(s)
      modifies this`copies, this`repr, s, s.messages
      ensures Valid() && CopiesKept() && OnlyNew()
      ensures s.id in old(Abs()).sessions
      ensures Abs() == old(Abs()).With(s.id, old(Abs()).sessions[s.id].Asked(content, deadline))
      ensures fresh(copy) && copy in copies && copy[..] == Abs().sessions[s.id].history
    {
      Begin(s, content, deadline);
      copy := HandOut(s);
    }

    /** The writes of PreparePrompt. */
    method Begin(s: Session, content: string, deadline: int)
      requires Valid() && Holds(s)
      modifies s, s.messages, this`repr
      ensures Valid() && CopiesKept() && OnlyNew()
      ensures s.id in old(Abs()).sessions
      ensures Abs() == old(Abs()).With(s.id, old(Abs()).sessions[s.id].Asked(content, deadline))
      ensures s.history == Abs().sessions[s.id].history
    {
      assert s in repr && s.messages in repr;
      s.Ask(content, deadline);
      assert CopiesKept();
      repr := repr + {s.messages};
      OneSessionWritten(s.id);
    }

    method FinishPrompt(i: string, assistantText: string, now: int)
      requires Valid()
      modifies this`repr, Live(i), Backing(i)
      ensures Valid() && CopiesKept() && OnlyNew()
      ensures Abs() == old(Abs()).FinishPrompt(cfg, i, assistantText, now)
    {
      if i !in sessions {
        return;
      }
      var s := sessions[i];
      assert s.id == i;
      ghost var next := Abs().With(s.id, Abs().sessions[s.id].Finished(assistantText, now + cfg.idleTimeout));
      Abs().FinishesLive(cfg, s.id, assistantText, now, next);
      Complete(s, assistantText, now + cfg.idleTimeout);
    }

    /** The writes of FinishPrompt. */
    method Complete(s: Session, text: string, deadline: int)
      requires Valid() && Holds(s)
      modifies s, s.messages, this`repr
      ensures Valid() && CopiesKept() && OnlyNew()
      ensures s.id in old(Abs()).sessions
      ensures Abs() == old(Abs()).With(s.id, old(Abs()).sessions[s.id].Finished(text, deadline))
    {
      assert s in repr && s.messages in repr;
      s.Finish(text, deadline);
      assert CopiesKept();
      repr := repr + {s.messages};
      OneSessionWritten(s.id);
    }

    method FailPrompt(i: string, now: int)
      requires Valid()
      modifies Live(i)
      ensures Valid() && copies == old(copies) && repr == old(repr)
      ensures Abs() == old(Abs()).FailPrompt(cfg, i, now)
    {
      if i !in sessions {
        return;
      }
      var s := sessions[i];
      assert s.id == i;
      ghost var next := Abs().With(s.id, Abs().sessions[s.id].Failed(now + cfg.idleTimeout));
      Abs().FailsLive(cfg, s.id, now, next);
      Abandon(s, now + cfg.idleTimeout);
    }

    /** The writes of FailPrompt. */
    method Abandon(s: Session, deadline: int)
      requires Valid() && Holds(s)
      modifies s
      ensures Valid() && copies == old(copies) && repr == old(repr)
      ensures s.id in old(Abs()).sessions && Abs() == old(Abs()).With(s.id, old(Abs()).sessions[s.id].Failed(deadline))
    {
      s.Fail(deadline);
      OneSessionWritten(s.id);
    }

    method SetGenCancel(i: string, cancel: Gen) returns (err: Option<Error>)
      requires Valid()
      modifies Live(i)
      ensures Valid() && copies == old(copies) && repr == old(repr)
      ensures (Abs(), err) == old(Abs()).SetGenCancel(i, cancel)
      ensures if i in old(sessions)
              then err.None? && i in Abs().sessions && Abs().sessions[i].genCancel == Some(cancel)
              else err == Some(NotFound)
    {
      if i !in sessions {
        return Some(NotFound);
      }
      sessions[i].genCancel := Some(cancel);
      OneSessionWritten(i);
      return None;
    }

    method CancelGeneration(i: string) returns (err: Option<Error>)
      requires Valid()
      modifies this`fired, Live(i)
      ensures Valid() && copies == old(copies) && repr == old(repr)
      ensures (Abs(), err) == old(Abs()).CancelGeneration(i)
      ensures err == if i !in old(sessions) then Some(NotFound)
                     else if old(sessions[i].genCancel).None? then Some(NotActive)
                     else None
    {
      if i !in sessions {
        return Some(NotFound);
      }
      var s := sessions[i];
      if s.genCancel.None? {
        return Some(NotActive);
      }
      fired := fired + Fire(s.genCancel);
      s.genCancel := None;
      WrittenSlices(i);
      WrittenViews(i);
      return None;
    }

    /** Destroys a session: its object is scrubbed and leaves both maps for good. */
    method Destroy(i: string)
      requires Valid()
      modifies this, Live(i)
      ensures Valid() && copies == old(copies) && repr == old(repr) && issued == old(issued) && NoneReturns()
      ensures Abs() == old(Abs()).Destroy(i)
      ensures sessions == old(sessions) - {i}
    {
      if i !in sessions {
        assert sessions == sessions - {i};
        return;
      }
      var s := sessions[i];
      var code := s.pairCode;
      fired := fired + Fire(s.genCancel);
      s.Scrub();
      sessions := sessions - {i};
      byPairCode := byPairCode - {code};
      RemovedIsValid(s);
      RemovedViews(s);
      RemovedIndex(s);
    }

    /** The body of the sweep's loop: destroys session `i` if it has expired.
        `gone` names the sessions of `before` already destroyed. */
    method SweepOne(i: string, now: int, ghost before: Store, ghost gone: set<string>, ghost pending: set<string>)
        returns (ghost gone': set<string>)
      requires Valid() && i in pending
      requires before.HalfSwept(gone, pending, now) && Abs() == before.DestroyAll(gone)
      modifies this, Live(i)
      ensures Valid() && copies == old(copies) && repr == old(repr) && issued == old(issued) && NoneReturns()
      ensures before.HalfSwept(gone', pending - {i}, now) && Abs() == before.DestroyAll(gone')
    {
      assert i in Abs().sessions;
      var s := sessions[i];
      gone' := gone;
      assert before.sessions[i] == s.View();
      var expired := false;
      match s.state {
        case Waiting => expired := now > s.pairExpiry;
        case Approved => expired := now > s.idleDeadline;
        case _ =>
      }
      if expired {
        before.DestroyAllThenOne(gone, i);
        Destroy(i);
        gone' := gone + {i};
      }
      before.OneLessPending(gone, pending, now, i);
    }

    /** Destroys what has expired, visiting the sessions in an arbitrary order
        while deleting from the map being visited. */
    method Sweep(now: int)
      requires Valid()
      modifies this, sessions.Values
      ensures Valid() && copies == old(copies) && repr == old(repr) && issued == old(issued) && NoneReturns()
      ensures Abs() == old(Abs()).Sweep(now) && Survivors(old(Abs()), now, Abs())
    {
      ghost var before := Abs();
      ghost var gone: set<string> := {};
      before.SweepStarts(now);
      var pending := sessions.Keys;
      while pending != {}
        invariant Valid() && copies == old(copies) && repr == old(repr) && issued == old(issued) && NoneReturns()
        invariant before.HalfSwept(gone, pending, now) && Abs() == before.DestroyAll(gone)
        decreases pending
      {
        var i :| i in pending;
        LiveBefore(i);
        gone := SweepOne(i, now, before, gone, pending);
        pending := pending - {i};
      }
      before.SweepEnds(gone, now);
      before.SweepSurvivors(now);
    }
  }
}
