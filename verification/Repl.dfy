/** The interactive client (internal/client/cli.go): the chat loop and the signal
    goroutine as two threads that share the atomics `streaming` and `cancelled`
    and the channel `quit`. Every atomic operation, channel operation and client
    call is one step; the scheduler and the environment choose among the enabled
    steps. */
module Repl {
  import opened Base
  import opened Sse

  /** The calls made on the gateway client. */
  datatype Call =
    | CallCreate(ok: bool)
    | CallStatus(reply: Option<string>)
    | CallPrompt(line: string)
    | CallCancel
    | CallClose

  const APPROVED := "APPROVED"
  const DESTROYED := "DESTROYED"
  const EXIT := "/exit"

  /** Why Run ends. */
  datatype Why = NoSession | NotPaired | Interrupted | EndOfInput | ExitTyped

  /** The thread of Run. */
  datatype Main =
    | Creating
    | Pairing
    | Ready                  // in the select of the chat loop
    | Begun(line: string)    // doPrompt entered
    | Reset(line: string)    // cancelled stored
    | Sending(line: string)  // streaming stored
    | Prompting              // inside client.Prompt
    | Returning              // Prompt has returned
    | Closing(why: Why)      // before client.Close
    | Over(why: Why)

  /** The signal goroutine. */
  datatype Signal =
    | NotStarted
    | Idle
    | Received               // before it loads streaming
    | SawStreaming           // before it swaps cancelled
    | SawQuiet               // before it closes quit
    | Cancelling             // before client.Cancel
    | Stopped

  /** The state, with the calls made so far and two history variables: how often
      doPrompt has reset `cancelled` and how often a swap has found it false. */
  datatype Repl = Repl(
    main: Main,
    signal: Signal,
    streaming: bool,
    cancelled: bool,
    quit: bool,
    pos: nat,
    resets: nat,
    swaps: nat,
    calls: seq<Call>)

  const START := Repl(Creating, NotStarted, false, false, false, 0, 0, 0, [])

  datatype Step =
    | Create(ok: bool)
    | GiveUp                                       // context done or signal while pairing
    | Poll(reply: Option<string>, expired: bool)
    | SeeQuit
    | TakeLine
    | SeeEndOfInput
    | ResetCancelled
    | SetStreaming
    | Prompt
    | PromptReturns
    | ClearStreaming
    | Close
    | ContextDone
    | Receive
    | LoadStreaming
    | SwapCancelled
    | Cancel
    | CloseQuit

  /** When a step can be taken; `lines` is the input, trimmed. */
  predicate Enabled(lines: seq<string>, r: Repl, s: Step) {
    match s
    case Create(_) => r.main.Creating?
    case GiveUp => r.main.Pairing?
    case Poll(_, _) => r.main.Pairing?
    case SeeQuit => r.main.Ready? && r.quit
    case TakeLine => r.main.Ready? && r.pos < |lines|
    case SeeEndOfInput => r.main.Ready? && r.pos == |lines|
    case ResetCancelled => r.main.Begun?
    case SetStreaming => r.main.Reset?
    case Prompt => r.main.Sending?
    case PromptReturns => r.main.Prompting?
    case ClearStreaming => r.main.Returning?
    case Close => r.main.Closing?
    case ContextDone => r.signal.Idle?
    case Receive => r.signal.Idle?
    case LoadStreaming => r.signal.Received?
    case SwapCancelled => r.signal.SawStreaming?
    case Cancel => r.signal.Cancelling?
    case CloseQuit => r.signal.SawQuiet?
  }

  function AfterPoll(r: Repl, reply: Option<string>, expired: bool): Repl {
    var q := r.(calls := r.calls + [CallStatus(reply)]);
    if reply == Some(APPROVED) then q.(main := Ready, signal := Idle)
    else if reply == Some(DESTROYED) || expired then q.(main := Closing(NotPaired))
    else q
  }

  function AfterLine(r: Repl, line: string): Repl {
    var q := r.(pos := r.pos + 1);
    if line == EXIT then q.(main := Closing(ExitTyped))
    else if line == "" then q
    else q.(main := Begun(line))
  }

  function Exec(lines: seq<string>, r: Repl, s: Step): Repl
    requires Enabled(lines, r, s)
  {
    match s
    case Create(ok) =>
      r.(main := if ok then Pairing else Over(NoSession), calls := r.calls + [CallCreate(ok)])
    case GiveUp => r.(main := Closing(NotPaired))
    case Poll(reply, expired) => AfterPoll(r, reply, expired)
    case SeeQuit => r.(main := Closing(Interrupted))
    case TakeLine => AfterLine(r, lines[r.pos])
    case SeeEndOfInput => r.(main := Closing(EndOfInput))
    case ResetCancelled => r.(main := Reset(r.main.line), cancelled := false, resets := r.resets + 1)
    case SetStreaming => r.(main := Sending(r.main.line), streaming := true)
    case Prompt => r.(main := Prompting, calls := r.calls + [CallPrompt(r.main.line)])
    case PromptReturns => r.(main := Returning)
    case ClearStreaming => r.(main := Ready, streaming := false)
    case Close => r.(main := Over(r.main.why), calls := r.calls + [CallClose])
    case ContextDone => r.(signal := Stopped, quit := true)
    case Receive => r.(signal := Received)
    case LoadStreaming => r.(signal := if r.streaming then SawStreaming else SawQuiet)
    case SwapCancelled =>
      if r.cancelled then r.(signal := Idle)
      else r.(signal := Cancelling, cancelled := true, swaps := r.swaps + 1)
    case Cancel => r.(signal := Idle, calls := r.calls + [CallCancel])
    case CloseQuit => r.(signal := Idle, quit := true)
  }

  /** The call a step makes. */
  function Made(r: Repl, s: Step): Option<Call>
    requires s.Prompt? ==> r.main.Sending?
  {
    match s
    case Create(ok) => Some(CallCreate(ok))
    case Poll(reply, _) => Some(CallStatus(reply))
    case Prompt => Some(CallPrompt(r.main.line))
    case Cancel => Some(CallCancel)
    case Close => Some(CallClose)
    case _ => None
  }

  lemma ExecMakes(lines: seq<string>, r: Repl, s: Step)
    requires Enabled(lines, r, s)
    ensures Exec(lines, r, s).calls == if Made(r, s).Some? then r.calls + [Made(r, s).value] else r.calls
  { }

  ghost predicate IsRun(lines: seq<string>, rs: seq<Repl>, steps: seq<Step>) {
    && |rs| == |steps| + 1
    && rs[0] == START
    && forall n | 0 <= n < |steps| :: Enabled(lines, rs[n], steps[n]) && rs[n + 1] == Exec(lines, rs[n], steps[n])
  }

  // ---- The life of a session, as an automaton over the calls ----

  datatype Stage = Fresh | Refused | Waiting | Open | Closed(paired: bool) | Broken

  function Next(st: Stage, c: Call): Stage {
    match (st, c)
    case (Fresh, CallCreate(ok)) => if ok then Waiting else Refused
    case (Waiting, CallStatus(reply)) => if reply == Some(APPROVED) then Open else Waiting
    case (Waiting, CallClose) => Closed(false)
    case (Open, CallPrompt(_)) => Open
    case (Open, CallCancel) => Open
    case (Open, CallClose) => Closed(true)
    case (Closed(paired), CallCancel) => if paired then st else Broken
    case _ => Broken
  }

  function StageOf(calls: seq<Call>): Stage {
    if calls == [] then Fresh else Next(StageOf(calls[..|calls| - 1]), calls[|calls| - 1])
  }

  lemma StagePush(calls: seq<Call>, c: Call)
    ensures StageOf(calls + [c]) == Next(StageOf(calls), c)
  {
    assert (calls + [c])[..|calls|] == calls;
  }

  function Prompts(calls: seq<Call>): seq<string> {
    if calls == [] then []
    else
      var last := calls[|calls| - 1];
      Prompts(calls[..|calls| - 1]) + (if last.CallPrompt? then [last.line] else [])
  }

  function Cancels(calls: seq<Call>): nat {
    if calls == [] then 0
    else Cancels(calls[..|calls| - 1]) + (if calls[|calls| - 1].CallCancel? then 1 else 0)
  }

  function Closes(calls: seq<Call>): nat {
    if calls == [] then 0
    else Closes(calls[..|calls| - 1]) + (if calls[|calls| - 1].CallClose? then 1 else 0)
  }

  lemma CountsPush(calls: seq<Call>, c: Call)
    ensures Prompts(calls + [c]) == if c.CallPrompt? then Prompts(calls) + [c.line] else Prompts(calls)
    ensures Cancels(calls + [c]) == Cancels(calls) + if c.CallCancel? then 1 else 0
    ensures Closes(calls + [c]) == Closes(calls) + if c.CallClose? then 1 else 0
  {
    assert (calls + [c])[..|calls|] == calls;
  }

  // ---- The prompts the input asks for ----

  /** What one line asks for. */
  function AsPrompt(line: string): seq<string> { if line == "" then [] else [line] }

  function NonEmpty(lines: seq<string>): seq<string> {
    if lines == [] then []
    else NonEmpty(lines[..|lines| - 1]) + AsPrompt(lines[|lines| - 1])
  }

  /** The non-empty lines before the first "/exit". */
  function Wanted(lines: seq<string>): seq<string> {
    if lines == [] || lines[0] == EXIT then [] else AsPrompt(lines[0]) + Wanted(lines[1..])
  }

  lemma {:induction false} NonEmptyFirst(lines: seq<string>)
    requires lines != []
    ensures NonEmpty(lines) == AsPrompt(lines[0]) + NonEmpty(lines[1..])
  {
    var front, rest, last := lines[..|lines| - 1], lines[1..], lines[|lines| - 1];
    if front == [] {
      assert rest == [] && [] + AsPrompt(last) == AsPrompt(last) + [];
    } else {
      NonEmptyFirst(front);
      assert front[1..] == rest[..|rest| - 1];
      AppendIsAssociative(AsPrompt(lines[0]), NonEmpty(front[1..]), AsPrompt(last));
    }
  }

  lemma {:induction false} TakenIsWanted(lines: seq<string>, pos: nat)
    requires pos <= |lines| && EXIT !in lines[..pos]
    ensures NonEmpty(lines[..pos]) <= Wanted(lines)
    ensures pos == |lines| || lines[pos] == EXIT ==> NonEmpty(lines[..pos]) == Wanted(lines)
  {
    if pos > 0 {
      var rest := lines[1..];
      assert lines[..pos][1..] == rest[..pos - 1];
      assert lines[0] in lines[..pos];
      NonEmptyFirst(lines[..pos]);
      TakenIsWanted(rest, pos - 1);
    }
  }

  // ---- Invariants ----

  predicate BetweenResetAndPrompt(m: Main) { m.Reset? || m.Sending? }

  /** The main thread knows where the session stands. */
  predicate StageFits(st: Stage, r: Repl) {
    match r.main
    case Creating => st == Fresh && r.signal.NotStarted?
    case Pairing => st == Waiting && r.signal.NotStarted?
    case Closing(why) =>
      if why.NotPaired? then st == Waiting && r.signal.NotStarted?
      else st == Open && !why.NoSession? && (why.Interrupted? ==> r.quit)
    case Over(why) =>
      if why.NoSession? then st == Refused && r.signal.NotStarted?
      else st == Closed(!why.NotPaired?) && (why.NotPaired? ==> r.signal.NotStarted?) && (why.Interrupted? ==> r.quit)
    case _ => st == Open
  }

  /** `prompts` and `cancels` are the numbers of such calls made. */
  predicate CountsFit(prompts: nat, cancels: nat, r: Repl) {
    && cancels + (if r.signal.Cancelling? then 1 else 0) == r.swaps
    && prompts + (if BetweenResetAndPrompt(r.main) then 1 else 0) == r.resets
    && r.swaps <= r.resets
    && (!r.cancelled && r.resets > 0 ==> r.swaps < r.resets)
    && (r.main.Creating? || r.main.Pairing? ==> r.signal.NotStarted?)
    && (r.streaming || r.signal.SawStreaming? || r.main.Prompting? || r.main.Returning? ==> r.resets > 0)
  }

  /** The line taken from the input and not sent yet. */
  function Pending(m: Main): seq<string> {
    if m.Begun? || m.Reset? || m.Sending? then [m.line] else []
  }

  predicate Exited(m: Main) { (m.Closing? || m.Over?) && m.why.ExitTyped? }

  /** Of the first `n` lines none is "/exit" and the non-empty ones are `asked`. */
  predicate Asked(lines: seq<string>, n: int, asked: seq<string>) {
    0 <= n <= |lines| && EXIT !in lines[..n] && NonEmpty(lines[..n]) == asked
  }

  /** `sent` are the prompts sent so far. */
  predicate InputFits(sent: seq<string>, lines: seq<string>, r: Repl) {
    if Exited(r.main) then
      0 < r.pos <= |lines| && lines[r.pos - 1] == EXIT && Asked(lines, r.pos - 1, sent)
    else
      && Asked(lines, r.pos, sent + Pending(r.main))
      && ((r.main.Closing? || r.main.Over?) && r.main.why.EndOfInput? ==> r.pos == |lines|)
  }

  predicate Inv(lines: seq<string>, r: Repl) {
    && StageFits(StageOf(r.calls), r)
    && CountsFit(|Prompts(r.calls)|, Cancels(r.calls), r)
    && InputFits(Prompts(r.calls), lines, r)
  }

  lemma StageStep(st: Stage, lines: seq<string>, r: Repl, s: Step)
    requires Enabled(lines, r, s) && StageFits(st, r)
    ensures StageFits(if Made(r, s).Some? then Next(st, Made(r, s).value) else st, Exec(lines, r, s))
  { }

  /** The steps of the signal goroutine. */
  predicate BySignal(s: Step) {
    s.ContextDone? || s.Receive? || s.LoadStreaming? || s.SwapCancelled? || s.Cancel? || s.CloseQuit?
  }

  lemma CountsSignalStep(prompts: nat, cancels: nat, lines: seq<string>, r: Repl, s: Step)
    requires Enabled(lines, r, s) && BySignal(s) && CountsFit(prompts, cancels, r)
    ensures CountsFit(prompts, cancels + (if s.Cancel? then 1 else 0), Exec(lines, r, s))
  { }

  /** The steps that send one prompt. */
  predicate Sends(s: Step) {
    s.ResetCancelled? || s.SetStreaming? || s.Prompt? || s.PromptReturns? || s.ClearStreaming?
  }

  lemma CountsSendStep(prompts: nat, cancels: nat, lines: seq<string>, r: Repl, s: Step)
    requires Enabled(lines, r, s) && Sends(s) && CountsFit(prompts, cancels, r)
    ensures CountsFit(prompts + (if s.Prompt? then 1 else 0), cancels, Exec(lines, r, s))
  { }

  lemma CountsOtherStep(prompts: nat, cancels: nat, lines: seq<string>, r: Repl, s: Step)
    requires Enabled(lines, r, s) && !BySignal(s) && !Sends(s) && CountsFit(prompts, cancels, r)
    ensures CountsFit(prompts, cancels, Exec(lines, r, s))
  {
    match s
    case Poll(reply, expired) => CountsPoll(prompts, cancels, r, reply, expired);
    case TakeLine => CountsLine(prompts, cancels, r, lines[r.pos]);
    case _ =>
  }

  lemma CountsPoll(prompts: nat, cancels: nat, r: Repl, reply: Option<string>, expired: bool)
    requires r.main.Pairing? && CountsFit(prompts, cancels, r)
    ensures CountsFit(prompts, cancels, AfterPoll(r, reply, expired))
  { }

  lemma CountsLine(prompts: nat, cancels: nat, r: Repl, line: string)
    requires r.main.Ready? && CountsFit(prompts, cancels, r)
    ensures CountsFit(prompts, cancels, AfterLine(r, line))
  { }

  lemma CountsStep(prompts: nat, cancels: nat, lines: seq<string>, r: Repl, s: Step)
    requires Enabled(lines, r, s) && CountsFit(prompts, cancels, r)
    ensures CountsFit(prompts + (if s.Prompt? then 1 else 0), cancels + (if s.Cancel? then 1 else 0), Exec(lines, r, s))
  {
    if BySignal(s) {
      CountsSignalStep(prompts, cancels, lines, r, s);
    } else if Sends(s) {
      CountsSendStep(prompts, cancels, lines, r, s);
    } else {
      CountsOtherStep(prompts, cancels, lines, r, s);
    }
  }

  /** One more line, which is not "/exit". */
  lemma TakeOne(lines: seq<string>, n: nat, asked: seq<string>, more: seq<string>)
    requires n < |lines| && Asked(lines, n, asked) && lines[n] != EXIT
    requires more == AsPrompt(lines[n])
    ensures Asked(lines, n + 1, asked + more)
  {
    assert lines[..n + 1] == lines[..n] + [lines[n]];
    assert lines[..n + 1][..n] == lines[..n];
  }

  lemma NothingPending(sent: seq<string>, m: Main)
    requires Pending(m) == []
    ensures sent + Pending(m) == sent
  { }

  lemma TakeKeepsInput(sent: seq<string>, lines: seq<string>, r: Repl)
    requires Enabled(lines, r, TakeLine) && InputFits(sent, lines, r)
    ensures InputFits(sent, lines, AfterLine(r, lines[r.pos]))
  {
    var q := AfterLine(r, lines[r.pos]);
    NothingPending(sent, r.main);
    if lines[r.pos] == EXIT {
      assert Exited(q.main) && q.pos - 1 == r.pos;
    } else {
      TakeOne(lines, r.pos, sent, Pending(q.main));
    }
  }

  lemma InputStep(sent: seq<string>, lines: seq<string>, r: Repl, s: Step)
    requires Enabled(lines, r, s) && InputFits(sent, lines, r)
    ensures InputFits(if s.Prompt? then sent + [r.main.line] else sent, lines, Exec(lines, r, s))
  {
    if s.TakeLine? {
      TakeKeepsInput(sent, lines, r);
    } else if s.Prompt? {
      PromptKeepsInput(sent, lines, r);
    } else {
      OtherKeepsInput(sent, lines, r, s);
    }
  }

  lemma PromptKeepsInput(sent: seq<string>, lines: seq<string>, r: Repl)
    requires Enabled(lines, r, Prompt) && InputFits(sent, lines, r)
    ensures InputFits(sent + [r.main.line], lines, Exec(lines, r, Prompt))
  {
    assert sent + [r.main.line] + [] == sent + [r.main.line];
  }

  lemma OtherKeepsInput(sent: seq<string>, lines: seq<string>, r: Repl, s: Step)
    requires Enabled(lines, r, s) && !s.TakeLine? && !s.Prompt? && InputFits(sent, lines, r)
    ensures InputFits(sent, lines, Exec(lines, r, s))
  { }

  lemma StepKeepsInv(lines: seq<string>, r: Repl, s: Step)
    requires Enabled(lines, r, s) && Inv(lines, r)
    ensures Inv(lines, Exec(lines, r, s))
  {
    StageStep(StageOf(r.calls), lines, r, s);
    CountsStep(|Prompts(r.calls)|, Cancels(r.calls), lines, r, s);
    InputStep(Prompts(r.calls), lines, r, s);
    ExecMakes(lines, r, s);
    if Made(r, s).Some? {
      StagePush(r.calls, Made(r, s).value);
      CountsPush(r.calls, Made(r, s).value);
    }
  }

  lemma {:induction false} RunsKeepInv(lines: seq<string>, rs: seq<Repl>, steps: seq<Step>, n: nat)
    requires IsRun(lines, rs, steps) && n < |rs|
    ensures Inv(lines, rs[n])
  {
    if n > 0 {
      RunsKeepInv(lines, rs, steps, n - 1);
      StepKeepsInv(lines, rs[n - 1], steps[n - 1]);
    }
  }

  // ---- Theorems ----

  /** In every run the calls follow the life of one session: nothing after a
      failed create, no prompt before an APPROVED status, exactly one close on
      every path that ends after a successful create, and only a late cancel
      after that close. */
  lemma CallsFollowTheSession(lines: seq<string>, rs: seq<Repl>, steps: seq<Step>, n: nat)
    requires IsRun(lines, rs, steps) && n < |rs|
    ensures var calls := rs[n].calls;
      && StageOf(calls) != Broken
      && (forall j | 0 <= j < |calls| && calls[j].CallPrompt? :: ApprovedBefore(calls, j) && Closes(calls[..j]) == 0)
      && Closes(calls) <= 1
      && (rs[n].main.Over? ==> Closes(calls) == if calls == [CallCreate(false)] then 0 else 1)
  {
    var calls := rs[n].calls;
    RunsKeepInv(lines, rs, steps, n);
    StageMeans(calls);
    forall j | 0 <= j < |calls| && calls[j].CallPrompt? ensures ApprovedBefore(calls, j) && Closes(calls[..j]) == 0 {
      PromptInStage(calls, j);
    }
  }

  ghost predicate ApprovedBefore(calls: seq<Call>, j: nat) {
    exists i :: 0 <= i < j && i < |calls| && calls[i] == CallStatus(Some(APPROVED))
  }

  lemma ApprovedPush(front: seq<Call>, last: Call)
    ensures ApprovedBefore(front + [last], |front| + 1)
       <==> ApprovedBefore(front, |front|) || last == CallStatus(Some(APPROVED))
  {
    var calls := front + [last];
    if ApprovedBefore(front, |front|) {
      var i :| 0 <= i < |front| && front[i] == CallStatus(Some(APPROVED));
      assert calls[i] == front[i];
    } else if last == CallStatus(Some(APPROVED)) {
      assert calls[|front|] == last;
    }
  }

  lemma {:induction false} StageMeans(calls: seq<Call>)
    requires StageOf(calls) != Broken
    ensures Closes(calls) == if StageOf(calls).Closed? then 1 else 0
    ensures StageOf(calls) == Fresh <==> calls == []
    ensures StageOf(calls) == Refused <==> calls == [CallCreate(false)]
  {
    if calls != [] {
      var front, last := calls[..|calls| - 1], calls[|calls| - 1];
      StageMeans(front);
    }
  }

  /** The session has been open exactly when an APPROVED status was seen. */
  lemma {:induction false} OpenedIffApproved(calls: seq<Call>)
    requires StageOf(calls) != Broken
    ensures ApprovedBefore(calls, |calls|) <==> StageOf(calls) == Open || StageOf(calls) == Closed(true)
  {
    if calls != [] {
      var front, last := calls[..|calls| - 1], calls[|calls| - 1];
      OpenedIffApproved(front);
      assert calls == front + [last];
      ApprovedPush(front, last);
    }
  }

  lemma {:induction false} PromptInStage(calls: seq<Call>, j: nat)
    requires StageOf(calls) != Broken && j < |calls| && calls[j].CallPrompt?
    ensures ApprovedBefore(calls, j) && Closes(calls[..j]) == 0
  {
    var front := calls[..|calls| - 1];
    if j < |front| {
      PromptInStage(front, j);
      assert front[..j] == calls[..j];
      var i :| 0 <= i < j && front[i] == CallStatus(Some(APPROVED));
      assert calls[i] == front[i];
    } else {
      StageMeans(front);
      OpenedIffApproved(front);
      var i :| 0 <= i < |front| && front[i] == CallStatus(Some(APPROVED));
      assert calls[i] == front[i];
    }
  }

  /** Between reset and call, with the flag of every prompt begun swapped. */
  predicate AllSwapped(r: Repl) {
    BetweenResetAndPrompt(r.main) && r.swaps == r.resets
  }

  predicate CancelsExceedPrompts(r: Repl) { Cancels(r.calls) > |Prompts(r.calls)| }

  /** Cancel calls never exceed the prompts begun. They exceed the Prompt calls
      exactly while the main thread is between the reset of the flag and its call,
      if the flag of every prompt begun has been swapped and no cancel is still to
      be sent. */
  lemma CancelsNeverExceedPrompts(lines: seq<string>, rs: seq<Repl>, steps: seq<Step>, n: nat)
    requires IsRun(lines, rs, steps) && n < |rs|
    ensures Cancels(rs[n].calls) <= rs[n].resets
    ensures CancelsExceedPrompts(rs[n])
       <==> AllSwapped(rs[n]) && !rs[n].signal.Cancelling?
  {
    RunsKeepInv(lines, rs, steps, n);
  }

  /** The one step that makes them exceed: the signal goroutine sends its cancel in
      that window, after the flag of every prompt begun has been swapped. */
  lemma CancelOvertakesIff(lines: seq<string>, rs: seq<Repl>, steps: seq<Step>, n: nat)
    requires IsRun(lines, rs, steps) && n < |steps|
    ensures !CancelsExceedPrompts(rs[n]) && CancelsExceedPrompts(rs[n + 1])
       <==> steps[n].Cancel? && AllSwapped(rs[n])
  {
    CancelsNeverExceedPrompts(lines, rs, steps, n);
    CancelsNeverExceedPrompts(lines, rs, steps, n + 1);
    CountsHold(lines, rs, steps, n);
    OvertakingStep(|Prompts(rs[n].calls)|, Cancels(rs[n].calls), lines, rs[n], steps[n], rs[n + 1]);
  }

  lemma CountsHold(lines: seq<string>, rs: seq<Repl>, steps: seq<Step>, n: nat)
    requires IsRun(lines, rs, steps) && n < |rs|
    ensures CountsFit(|Prompts(rs[n].calls)|, Cancels(rs[n].calls), rs[n])
  {
    RunsKeepInv(lines, rs, steps, n);
  }

  lemma OvertakingStep(prompts: nat, cancels: nat, lines: seq<string>, r: Repl, s: Step, q: Repl)
    requires Enabled(lines, r, s) && q == Exec(lines, r, s) && CountsFit(prompts, cancels, r)
    ensures !(AllSwapped(r) && !r.signal.Cancelling?) && AllSwapped(q) && !q.signal.Cancelling?
       <==> s.Cancel? && AllSwapped(r)
  { }

  /** The prompts sent are a prefix of those the input asks for, in order, and all
      of them when the loop ends on its own. */
  lemma PromptsFollowTheInput(lines: seq<string>, rs: seq<Repl>, steps: seq<Step>, n: nat)
    requires IsRun(lines, rs, steps) && n < |rs|
    ensures Prompts(rs[n].calls) <= Wanted(lines)
    ensures rs[n].main.Over? && ApprovedBefore(rs[n].calls, |rs[n].calls|) && !rs[n].quit ==>
      Prompts(rs[n].calls) == Wanted(lines)
  {
    var r := rs[n];
    RunsKeepInv(lines, rs, steps, n);
    var taken := if Exited(r.main) then r.pos - 1 else r.pos;
    TakenIsWanted(lines, taken);
    OpenedIffApproved(r.calls);
  }

  // ---- Interrupts ----

  /** Exactly the closing of the channel, by the signal goroutine at the prompt or when
      the context has ended, makes the loop see quit. */
  lemma {:induction false} QuitIff(lines: seq<string>, rs: seq<Repl>, steps: seq<Step>, n: nat)
    requires IsRun(lines, rs, steps) && n < |rs|
    ensures rs[n].quit <==> exists k :: 0 <= k < n && (steps[k].CloseQuit? || steps[k].ContextDone?)
  {
    if n > 0 {
      var k := n - 1;
      QuitIff(lines, rs, steps, k);
      QuitStep(lines, rs[k], steps[k], rs[n]);
    }
  }

  lemma QuitStep(lines: seq<string>, r: Repl, s: Step, q: Repl)
    requires Enabled(lines, r, s) && q == Exec(lines, r, s)
    ensures q.quit <==> r.quit || s.CloseQuit? || s.ContextDone?
  { }

  /** `streaming` is set exactly from doPrompt's announcement to its end. */
  lemma {:induction false} StreamingIff(lines: seq<string>, rs: seq<Repl>, steps: seq<Step>, n: nat)
    requires IsRun(lines, rs, steps) && n < |rs|
    ensures rs[n].streaming <==> rs[n].main.Sending? || rs[n].main.Prompting? || rs[n].main.Returning?
  {
    if n > 0 {
      var k := n - 1;
      StreamingIff(lines, rs, steps, k);
      StreamingStep(lines, rs[k], steps[k], rs[n]);
    }
  }

  lemma StreamingStep(lines: seq<string>, r: Repl, s: Step, q: Repl)
    requires Enabled(lines, r, s) && q == Exec(lines, r, s)
    requires r.streaming <==> r.main.Sending? || r.main.Prompting? || r.main.Returning?
    ensures q.streaming <==> q.main.Sending? || q.main.Prompting? || q.main.Returning?
  { }

  /** Step k swaps `cancelled`, and none of the steps from there to n resets it. */
  predicate SwappedAt(steps: seq<Step>, k: nat, n: nat)
    requires k < n <= |steps|
  {
    steps[k].SwapCancelled? && forall j | k < j < n :: !steps[j].ResetCancelled?
  }

  /** `cancelled` is set exactly if it has been swapped since doPrompt last reset it. */
  lemma {:induction false} CancelledIff(lines: seq<string>, rs: seq<Repl>, steps: seq<Step>, n: nat)
    requires IsRun(lines, rs, steps) && n < |rs|
    ensures rs[n].cancelled <==> exists k :: 0 <= k < n && SwappedAt(steps, k, n)
  {
    if n > 0 {
      var k := n - 1;
      CancelledIff(lines, rs, steps, k);
      CancelledStep(lines, rs[k], steps[k], rs[n]);
      if rs[k].cancelled && !steps[k].ResetCancelled? {
        var i :| 0 <= i < k && SwappedAt(steps, i, k);
        assert SwappedAt(steps, i, n);
      } else if steps[k].SwapCancelled? {
        assert SwappedAt(steps, k, n);
      } else {
        forall i | 0 <= i < k && SwappedAt(steps, i, n)
          ensures SwappedAt(steps, i, k) && !steps[k].ResetCancelled?
        { }
      }
    }
  }

  lemma CancelledStep(lines: seq<string>, r: Repl, s: Step, q: Repl)
    requires Enabled(lines, r, s) && q == Exec(lines, r, s)
    ensures q.cancelled <==> s.SwapCancelled? || (r.cancelled && !s.ResetCancelled?)
  { }

  /** The signal goroutine, having taken a signal and looked at `streaming`, goes
      on to close the channel exactly if no prompt is under way, and waits there until
      it has; otherwise it sends a cancel exactly if it is the first to swap the flag
      since the prompt began. */
  lemma SignalIsHandled(lines: seq<string>, rs: seq<Repl>, steps: seq<Step>, n: nat)
    requires IsRun(lines, rs, steps) && n < |steps|
    ensures steps[n].LoadStreaming? ==>
      var m := rs[n].main;
      rs[n + 1].signal == if m.Sending? || m.Prompting? || m.Returning? then SawStreaming else SawQuiet
    ensures steps[n].SwapCancelled? ==>
      rs[n + 1].signal ==
        if exists k :: 0 <= k < n && SwappedAt(steps, k, n) then Idle else Cancelling
    ensures Enabled(lines, rs[n], match rs[n].signal
                                  case Received => LoadStreaming
                                  case SawStreaming => SwapCancelled
                                  case SawQuiet => CloseQuit
                                  case Cancelling => Cancel
                                  case _ => steps[n])
    ensures rs[n].signal.Idle? ==> Enabled(lines, rs[n], Receive) && Enabled(lines, rs[n], ContextDone)
    ensures rs[n].signal.Received? ==> steps[n].LoadStreaming? || rs[n + 1].signal.Received?
    ensures rs[n].signal.SawStreaming? ==> steps[n].SwapCancelled? || rs[n + 1].signal.SawStreaming?
    ensures rs[n].signal.SawQuiet? ==> steps[n].CloseQuit? || rs[n + 1].signal.SawQuiet?
    ensures rs[n].signal.Cancelling? ==>
      if steps[n].Cancel? then Cancels(rs[n + 1].calls) == Cancels(rs[n].calls) + 1 else rs[n + 1].signal.Cancelling?
  {
    StreamingIff(lines, rs, steps, n);
    CancelledIff(lines, rs, steps, n);
    RunsKeepInv(lines, rs, steps, n);
    SignalStep(lines, rs[n], steps[n], rs[n + 1]);
  }

  lemma SignalStep(lines: seq<string>, r: Repl, s: Step, q: Repl)
    requires Enabled(lines, r, s) && q == Exec(lines, r, s) && (r.main.Pairing? ==> r.signal.NotStarted?)
    ensures s.LoadStreaming? ==> q.signal == if r.streaming then SawStreaming else SawQuiet
    ensures s.SwapCancelled? ==> q.signal == if r.cancelled then Idle else Cancelling
    ensures r.signal.Received? ==> s.LoadStreaming? || q.signal.Received?
    ensures r.signal.SawStreaming? ==> s.SwapCancelled? || q.signal.SawStreaming?
    ensures r.signal.SawQuiet? ==> s.CloseQuit? || q.signal.SawQuiet?
    ensures r.signal.Cancelling? ==>
      if s.Cancel? then Cancels(q.calls) == Cancels(r.calls) + 1 else q.signal.Cancelling?
  {
    if s.Cancel? {
      CountsPush(r.calls, CallCancel);
    }
  }

  /** An interrupt at the prompt ends the session: once quit is closed, the loop can
      see it whenever it waits for a line, and from there the only way on for the main
      thread is the one Close call, with which Run is over. */
  lemma InterruptEndsTheSession(lines: seq<string>, rs: seq<Repl>, steps: seq<Step>, k: nat, n: nat)
    requires IsRun(lines, rs, steps) && k < n < |rs|
    requires steps[k].CloseQuit? || steps[k].ContextDone?
    ensures rs[n].main.Ready? ==> Enabled(lines, rs[n], SeeQuit)
    ensures n < |steps| && steps[n].SeeQuit? ==> rs[n + 1].main == Closing(Interrupted)
    ensures n < |steps| && rs[n].main == Closing(Interrupted) ==>
      if steps[n].Close? then rs[n + 1].main == Over(Interrupted) && Closes(rs[n + 1].calls) == 1
      else rs[n + 1].main == Closing(Interrupted) && Closes(rs[n + 1].calls) == 0
  {
    QuitIff(lines, rs, steps, n);
    if n < |steps| {
      ClosingStep(lines, rs[n], steps[n], rs[n + 1]);
      CallsFollowTheSession(lines, rs, steps, n + 1);
      RunsKeepInv(lines, rs, steps, n + 1);
      StageMeans(rs[n + 1].calls);
    }
  }

  lemma ClosingStep(lines: seq<string>, r: Repl, s: Step, q: Repl)
    requires Enabled(lines, r, s) && q == Exec(lines, r, s)
    ensures s.SeeQuit? ==> q.main == Closing(Interrupted)
    ensures r.main == Closing(Interrupted) ==> q.main == if s.Close? then Over(Interrupted) else Closing(Interrupted)
  { }

  /** The chat is over: the session is about to be closed, or has been. */
  predicate Ending(m: Main) { m.Closing? || m.Over? }

  lemma EndingStep(lines: seq<string>, r: Repl, s: Step, q: Repl)
    requires Enabled(lines, r, s) && q == Exec(lines, r, s)
    ensures r.main.Ready? && (s.SeeQuit? || s.SeeEndOfInput? || (s.TakeLine? && lines[r.pos] == EXIT)) ==>
      q.main.Closing?
    ensures Ending(r.main) ==> Ending(q.main) && Prompts(q.calls) == Prompts(r.calls)
    ensures r.main.Closing? && s.Close? ==> q.main.Over?
  {
    if Made(r, s).Some? {
      CountsPush(r.calls, Made(r, s).value);
    }
  }

  /** Quit, the end of the input and "/exit" each end the chat for good: no more prompts
      are sent, and the next step of the main thread is the one Close call. */
  lemma {:induction false} TheChatEnds(lines: seq<string>, rs: seq<Repl>, steps: seq<Step>, n: nat, m: nat)
    requires IsRun(lines, rs, steps) && n < m < |rs| && rs[n].main.Ready?
    requires steps[n].SeeQuit? || steps[n].SeeEndOfInput? || (steps[n].TakeLine? && lines[rs[n].pos] == EXIT)
    ensures Ending(rs[m].main) && Prompts(rs[m].calls) == Prompts(rs[n].calls)
    ensures rs[m].main.Closing? ==> Enabled(lines, rs[m], Close)
    ensures m < |steps| && rs[m].main.Closing? && steps[m].Close? ==> rs[m + 1].main.Over?
    ensures rs[m].main.Over? ==> Closes(rs[m].calls) == 1
    decreases m - n
  {
    var k := m - 1;
    EndingStep(lines, rs[k], steps[k], rs[m]);
    if k > n {
      TheChatEnds(lines, rs, steps, n, k);
    } else {
      ExecMakes(lines, rs[k], steps[k]);
    }
    if m < |steps| {
      EndingStep(lines, rs[m], steps[m], rs[m + 1]);
    }
    OpenChatIsClosed(lines, rs, steps, n, m);
  }

  /** Once a chat has been open, Run is over only after the one Close call. */
  lemma OpenChatIsClosed(lines: seq<string>, rs: seq<Repl>, steps: seq<Step>, n: nat, m: nat)
    requires IsRun(lines, rs, steps) && n < m < |rs| && rs[n].main.Ready?
    ensures rs[m].main.Over? ==> Closes(rs[m].calls) == 1
  {
    CallsFollowTheSession(lines, rs, steps, m);
    CallsGrow(lines, rs, steps, n, m);
    RunsKeepInv(lines, rs, steps, n);
    StageMeans(rs[n].calls);
    LongerThanRefusal(rs[n].calls, rs[m].calls);
  }

  lemma LongerThanRefusal(a: seq<Call>, b: seq<Call>)
    requires a <= b && a != [] && a != [CallCreate(false)]
    ensures b != [CallCreate(false)]
  {
    assert a[0] == b[0];
  }

  lemma {:induction false} CallsGrow(lines: seq<string>, rs: seq<Repl>, steps: seq<Step>, n: nat, m: nat)
    requires IsRun(lines, rs, steps) && n <= m < |rs|
    ensures rs[n].calls <= rs[m].calls
    decreases m - n
  {
    if n < m {
      var k := m - 1;
      CallsGrow(lines, rs, steps, n, k);
      ExecMakes(lines, rs[k], steps[k]);
    }
  }

  /** While Run waits for the approval, a poll that says APPROVED opens the chat; one
      that says DESTROYED, or comes after the expiry, ends it, and so does a signal or
      the end of the context; any other poll is repeated. */
  lemma PairingEnds(lines: seq<string>, rs: seq<Repl>, steps: seq<Step>, n: nat)
    requires IsRun(lines, rs, steps) && n < |steps| && rs[n].main.Pairing?
    ensures rs[n + 1].main == match steps[n]
      case GiveUp => Closing(NotPaired)
      case Poll(reply, expired) =>
        if reply == Some(APPROVED) then Ready
        else if expired || reply == Some(DESTROYED) then Closing(NotPaired)
        else Pairing
      case _ => Pairing
  {
    RunsKeepInv(lines, rs, steps, n);
  }

  predicate Interrupts(s: Step) { s.Receive? || s.ContextDone? }

  /** The signal goroutine has had nothing to do. */
  predicate Quiet(r: Repl) {
    !r.quit && r.swaps == 0 && (r.signal.NotStarted? || r.signal.Idle?)
  }

  lemma QuietStep(lines: seq<string>, r: Repl, s: Step)
    requires Enabled(lines, r, s) && Quiet(r) && !Interrupts(s)
    ensures Quiet(Exec(lines, r, s))
  { }

  lemma {:induction false} QuitNeedsInterrupt(lines: seq<string>, rs: seq<Repl>, steps: seq<Step>, n: nat)
    requires IsRun(lines, rs, steps) && n < |rs|
    requires forall k | 0 <= k < n :: !Interrupts(steps[k])
    ensures Quiet(rs[n])
  {
    if n > 0 {
      QuitNeedsInterrupt(lines, rs, steps, n - 1);
      QuietStep(lines, rs[n - 1], steps[n - 1]);
    }
  }

  /** Without an interrupt after the approval every prompt the input asks for has
      been sent by the time Run returns. */
  lemma UninterruptedRunSendsAll(lines: seq<string>, rs: seq<Repl>, steps: seq<Step>, n: nat)
    requires IsRun(lines, rs, steps) && n < |rs|
    requires forall k | 0 <= k < n :: !Interrupts(steps[k])
    requires rs[n].main.Over? && ApprovedBefore(rs[n].calls, |rs[n].calls|)
    ensures Prompts(rs[n].calls) == Wanted(lines) && Cancels(rs[n].calls) == 0
  {
    QuitNeedsInterrupt(lines, rs, steps, n);
    PromptsFollowTheInput(lines, rs, steps, n);
    RunsKeepInv(lines, rs, steps, n);
  }

  /** Some run reaches `r`. */
  ghost predicate Reachable(lines: seq<string>, r: Repl) {
    exists rs, steps :: IsRun(lines, rs, steps) && rs[|steps|] == r
  }

  lemma ReachStart(lines: seq<string>)
    ensures Reachable(lines, START)
  {
    var rs, steps: seq<Step> := [START], [];
    assert IsRun(lines, rs, steps) && rs[|steps|] == START;
  }

  lemma ReachNext(lines: seq<string>, r: Repl, s: Step, q: Repl)
    requires Reachable(lines, r) && Enabled(lines, r, s) && Exec(lines, r, s) == q
    ensures Reachable(lines, q)
  {
    var rs, steps :| IsRun(lines, rs, steps) && rs[|steps|] == r;
    assert IsRun(lines, rs + [q], steps + [s]) && (rs + [q])[|steps + [s]|] == q;
  }

  lemma ReachSending(line: string, c2: seq<Call>)
    requires line != "" && line != EXIT && c2 == [CallCreate(true), CallStatus(Some(APPROVED))]
    ensures Reachable([line], Repl(Sending(line), Idle, true, false, false, 1, 1, 0, c2))
  {
    var c1 := [CallCreate(true)];
    var r1 := START.(main := Pairing, calls := c1);
    var r2 := r1.(main := Ready, signal := Idle, calls := c2);
    var r3 := r2.(main := Begun(line), pos := 1);
    var r4 := r3.(main := Reset(line), resets := 1);
    var r5 := r4.(main := Sending(line), streaming := true);
    ReachStart([line]);
    ReachNext([line], START, Create(true), r1);
    ReachNext([line], r1, Poll(Some(APPROVED), false), r2);
    ReachNext([line], r2, TakeLine, r3);
    ReachNext([line], r3, ResetCancelled, r4);
    ReachNext([line], r4, SetStreaming, r5);
  }

  /** A signal taken after doPrompt has announced its stream and before it has
      called Prompt sends the cancel first: one cancel, no prompt yet. */
  lemma CancelCanOvertakePrompt(line: string) returns (r: Repl)
    requires line != "" && line != EXIT
    ensures Reachable([line], r) && Cancels(r.calls) == 1 && Prompts(r.calls) == []
  {
    var c2 := [CallCreate(true), CallStatus(Some(APPROVED))];
    var r5 := Repl(Sending(line), Idle, true, false, false, 1, 1, 0, c2);
    var r6 := r5.(signal := Received);
    var r7 := r6.(signal := SawStreaming);
    var r8 := r7.(signal := Cancelling, cancelled := true, swaps := 1);
    r := r8.(signal := Idle, calls := c2 + [CallCancel]);
    ReachSending(line, c2);
    ReachNext([line], r5, Receive, r6);
    ReachNext([line], r6, LoadStreaming, r7);
    ReachNext([line], r7, SwapCancelled, r8);
    ReachNext([line], r8, Cancel, r);
    OneCancel(c2);
  }

  lemma OneCancel(c2: seq<Call>)
    requires forall i | 0 <= i < |c2| :: !c2[i].CallPrompt? && !c2[i].CallCancel?
    ensures Cancels(c2 + [CallCancel]) == 1 && Prompts(c2 + [CallCancel]) == []
  {
    NothingCounted(c2);
    CountsPush(c2, CallCancel);
  }

  lemma {:induction false} NothingCounted(calls: seq<Call>)
    requires forall i | 0 <= i < |calls| :: !calls[i].CallPrompt? && !calls[i].CallCancel?
    ensures Cancels(calls) == 0 && Prompts(calls) == []
  {
    if calls != [] {
      NothingCounted(calls[..|calls| - 1]);
    }
  }

  // ---- Reading the input ----

  /** The lines of the input as they enter the channel. */
  function InputLines(text: string): (lines: seq<string>)
    ensures |lines| == |SplitLines(text)|
  {
    var ls := SplitLines(text);
    seq(|ls|, i requires 0 <= i < |ls| => Trim(ls[i]))
  }

  method ReadLines(text: string) returns (lines: seq<string>)
    ensures lines == InputLines(text)
  {
    ghost var ls := SplitLines(text);
    ghost var k := 0;
    var rest := text;
    lines := [];
    while rest != ""
      invariant k <= |ls| && SplitLines(rest) == ls[k..]
      invariant lines == InputLines(text)[..k]
      decreases |rest|
    {
      var n := ScanLine(rest);
      FirstScannedLine(rest, n, ls[k..]);
      lines := lines + [Trim(rest[..n])];
      rest := if n < |rest| then rest[n + 1..] else "";
      k := k + 1;
    }
  }
}
