/** Why PreparePrompt and SessionHistory copy the history they hand out: slices of
    one backing array see each other's writes (internal/session/manager.go). */
module Copies {
  import opened Base
  import opened Settings
  import opened Store
  import opened Manager

  /** One call of a manager method. */
  datatype Call =
    | Create(draw: Option<Draw>, now: int)
    | ReadHistory(id: string)
    | ApproveByToken(pairToken: string, settings: GenerationSettings, token: Option<string>, now: int)
    | ApproveByCode(code: string, settings: GenerationSettings, token: Option<string>, now: int)
    | End(id: string, bearer: string)
    | Prepare(id: string, content: string, now: int)
    | Finish(id: string, text: string, now: int)
    | Fail(id: string, now: int)
    | Register(id: string, cancel: Gen)
    | Cancel(id: string)
    | Destroy(id: string)
    | Sweep(now: int)

  /** Any call; a creation that would draw an id in use is skipped. */
  method Perform(g: Manager, c: Call)
    requires g.Valid()
    modifies g, g.repr
    ensures g.Valid() && g.CopiesKept() && g.OnlyNew()
    ensures old(g.issued) <= g.issued && g.NoneReturns()
  {
    match c {
      case Create(draw, now) =>
        if draw.None? || draw.value.id !in g.sessions {
          var r := g.Create(draw, now);
        }
      case End(id, bearer) => var r := g.EndByControlToken(id, bearer);
      case Destroy(id) => g.Destroy(id);
      case Sweep(now) => g.Sweep(now);
      case _ => Write(g, c);
    }
  }

  /** A call that neither adds nor removes a session. */
  method Write(g: Manager, c: Call)
    requires g.Valid() && !c.Create? && !c.End? && !c.Destroy? && !c.Sweep?
    modifies g, g.repr
    ensures g.Valid() && g.CopiesKept() && g.OnlyNew()
    ensures g.sessions == old(g.sessions) && g.issued == old(g.issued)
  {
    match c {
      case ReadHistory(id) => var r := g.SessionHistory(id);
      case Prepare(id, content, now) => var r := g.PreparePrompt(id, content, now);
      case Finish(id, text, now) => g.FinishPrompt(id, text, now);
      case ApproveByToken(_, _, _, _) | ApproveByCode(_, _, _, _) => Mark(g, c);
      case Fail(_, _) | Register(_, _) | Cancel(_) => Mark(g, c);
    }
  }

  /** A call that writes to no history but to cut it short. */
  method Mark(g: Manager, c: Call)
    requires g.Valid() && (c.ApproveByToken? || c.ApproveByCode? || c.Fail? || c.Register? || c.Cancel?)
    modifies g`fired, g.repr
    ensures g.Valid() && g.copies == old(g.copies) && g.repr == old(g.repr)
    ensures g.sessions == old(g.sessions) && g.issued == old(g.issued)
  {
    match c {
      case ApproveByToken(_, _, _, _) | ApproveByCode(_, _, _, _) => Approve(g, c);
      case Fail(id, now) => g.FailPrompt(id, now);
      case Register(id, cancel) => var r := g.SetGenCancel(id, cancel);
      case Cancel(id) => var r := g.CancelGeneration(id);
    }
  }

  method Approve(g: Manager, c: Call)
    requires g.Valid() && (c.ApproveByToken? || c.ApproveByCode?)
    modifies g.sessions.Values
    ensures g.Valid() && g.copies == old(g.copies) && g.repr == old(g.repr)
  {
    match c {
      case ApproveByToken(pairToken, settings, token, now) =>
        var r := g.ApproveByToken(pairToken, settings, token, now);
      case ApproveByCode(code, settings, token, now) => var r := g.ApproveByCode(code, settings, token, now);
    }
  }

  /** A copy keeps its contents over any later calls, whatever they are. */
  method PerformAll(g: Manager, calls: seq<Call>, copy: array<Message>)
    requires g.Valid() && copy in g.copies
    modifies g, g.repr
    ensures g.Valid() && copy in g.copies && copy[..] == old(copy[..])
  {
    for k := 0 to |calls|
      invariant g.Valid() && g.OnlyNew()
      invariant copy in g.copies && copy[..] == old(copy[..])
    {
      Perform(g, calls[k]);
    }
  }

  /** A session object that has left the manager stays out of reach and scrubbed, of
      history, tokens, code and settings, over any later calls. */
  method ScrubbedForGood(g: Manager, calls: seq<Call>, s: Session)
    requires g.Valid() && s in g.issued && !g.Holds(s)
    modifies g, g.repr
    ensures g.Valid() && s in g.issued && !g.Holds(s) && s.Scrubbed()
  {
    for k := 0 to |calls|
      invariant g.Valid() && g.OnlyNew()
      invariant s in g.issued && !g.Holds(s)
    {
      Perform(g, calls[k]);
    }
  }

  /** The writes of PreparePrompt, FailPrompt and PreparePrompt on one session, if
      the first had handed out the history slice itself, `given[..n]`, in place of
      a copy. What was `seen` in it then is read differently afterwards exactly if
      the two prompts differ. */
  method PrepareWithoutCopy(s: Session, asked: string, next: string, deadline: int)
    returns (given: array<Message>, n: nat, seen: seq<Message>)
    requires s.SliceOk()
    modifies s, s.messages
    ensures n <= given.Length
    ensures seen == old(s.history) + [Message(User, asked)]
    ensures given[..n] == old(s.history) + [Message(User, next)]
    ensures given[..n] == seen <==> asked == next
  {
    s.Ask(asked, deadline);
    given, n := s.messages, s.count;
    seen := given[..n];
    s.Fail(deadline);
    s.Ask(next, deadline);
    assert seen[n - 1].content == asked && given[..n][n - 1].content == next;
  }
}
