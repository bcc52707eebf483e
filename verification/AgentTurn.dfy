/** The native agent turn: a bounded loop of provider requests and tool calls whose durable
    form commits every message before it appends it to memory.

    An Environment answers for the provider, the tools, the stores, the progress guard and
    the usage budget, by round and by call; a turn is a function of it.  A state remembers
    every instant before it, so that what holds at each is what a crash there would find. */
module AgentTurn {
  import opened Common

  datatype Call = Call(id: string, name: string, arguments: string)

  datatype Message =
    | Earlier(text: string)
    | Assistant(text: string, calls: seq<Call>)
    | ToolResult(callId: string, output: string)

  datatype Reply = ProviderError | Answer(text: string, calls: seq<Call>)

  /** The one answer-only request that follows a second rejected memory change. */
  datatype Recovery = Recovery(prepared: bool, reply: Reply, settled: bool, notice: string, noticeAccepted: bool)

  datatype Environment = Environment(
    halted: bool,                                    // the guard has already stopped this history
    recovering: bool,                                // and memory changes were rejected twice in it
    prepared: nat -> bool,                           // prompt refresh, rendering and budget admission
    reply: nat -> Reply,
    settled: nat -> bool,                            // usage settlement
    assistantAccepted: nat -> bool,
    stepStarted: nat -> bool,                        // StepStarted append and its boundary observer
    blocked: (nat, nat) -> Option<string>,           // the guard answers in the tool's place
    executorFails: (nat, nat) -> bool,               // durable tools only
    output: (nat, nat) -> string,
    recorded: (nat, nat, string) -> Option<string>,  // the output recorder of a turn without durable services
    resultAccepted: (nat, nat) -> bool,
    resultObserved: (nat, nat) -> bool,
    stopped: nat -> bool,                            // the guard stops after this round
    recovers: nat -> bool,                           // memory changes were rejected twice by its end
    recovery: Recovery)

  datatype Failure =
    | NoRounds | GuardStopped | NotPrepared | ProviderFailed | NotSettled | AssistantRejected | StepRejected
    | ExecutorFailed | NotRetained | ResultRejected | BoundaryFailed | NoticeRejected | RecoveryFailed

  /** A recovered turn is a completed one to its caller; only the request that ended it differs. */
  datatype Outcome =
    | Completed(message: Message)
    | Recovered(message: Message)
    | RoundBudgetReached(rounds: nat)
    | Failed(why: Failure)

  datatype Step = Requested | Acked(message: Message) | Pushed(message: Message) | Dispatched(call: Call)

  /** A step about to be taken, and what memory and the durable history hold then. */
  datatype Instant = Instant(step: Step, messages: seq<Message>, acks: seq<Message>)

  datatype State = State(messages: seq<Message>, acks: seq<Message>, past: seq<Instant>)

  /** What a stretch of a turn leaves, and how it ends the turn, if it does. */
  datatype Progress = Progress(state: State, end: Option<Outcome>)

  // ---------------------------------------------------------------- the turn as a function

  function Do(s: State, step: Step): State {
    State(if step.Pushed? then s.messages + [step.message] else s.messages,
          if step.Acked? then s.acks + [step.message] else s.acks,
          s.past + [Instant(step, s.messages, s.acks)])
  }

  function Fail(s: State, why: Failure): Progress {
    Progress(s, Some(Failed(why)))
  }

  function RawOutput(env: Environment, r: nat, j: nat): string {
    match env.blocked(r, j)
    case Some(refusal) => refusal
    case None => env.output(r, j)
  }

  /** The result of a call, committed and appended. */
  function Finish(env: Environment, durable: bool, r: nat, j: nat, call: Call, s: State): Progress {
    var raw := RawOutput(env, r, j);
    if durable then
      var message := ToolResult(call.id, raw);
      if !env.resultAccepted(r, j) then Fail(s, ResultRejected)
      else if !env.resultObserved(r, j) then Fail(Do(s, Acked(message)), BoundaryFailed)
      else Progress(Do(Do(s, Acked(message)), Pushed(message)), None)
    else
      match env.recorded(r, j, raw)
      case None => Fail(s, NotRetained)
      case Some(kept) => Progress(Do(s, Pushed(ToolResult(call.id, kept))), None)
  }

  function Invoke(env: Environment, durable: bool, r: nat, j: nat, call: Call, s: State): Progress {
    if env.blocked(r, j).Some? then Finish(env, durable, r, j, call, s)
    else if durable && env.executorFails(r, j) then Fail(Do(s, Dispatched(call)), ExecutorFailed)
    else Finish(env, durable, r, j, call, Do(s, Dispatched(call)))
  }

  function InvokeAll(env: Environment, durable: bool, r: nat, calls: seq<Call>, j: nat, s: State): Progress
    requires j <= |calls|
    decreases |calls| - j
  {
    if j == |calls| then Progress(s, None)
    else
      var p := Invoke(env, durable, r, j, calls[j], s);
      if p.end.Some? then p else InvokeAll(env, durable, r, calls, j + 1, p.state)
  }

  /** The assistant message of a round: memory follows the acknowledgement. */
  function Append(env: Environment, durable: bool, r: nat, message: Message, s: State): Progress {
    if !durable then Progress(Do(s, Pushed(message)), None)
    else if !env.assistantAccepted(r) then Fail(s, AssistantRejected)
    else if !env.stepStarted(r) then Fail(Do(Do(s, Acked(message)), Pushed(message)), StepRejected)
    else Progress(Do(Do(s, Acked(message)), Pushed(message)), None)
  }

  /** What the conversation keeps when recovery finds no answer. */
  function Notice(env: Environment): Message {
    Assistant(env.recovery.notice, [])
  }

  /** Recovery takes text only, and not blank. */
  predicate IsAnswer(reply: Reply) {
    reply.Answer? && reply.calls == [] && !Blank(reply.text)
  }

  /** `recover_memory_answer`: one request; its answer ends the turn, and without one a notice
      is committed and appended before the turn fails. */
  function Recover(env: Environment, durable: bool, s: State): Progress {
    var reply := env.recovery.reply;
    if !env.recovery.prepared then Fail(s, NotPrepared)
    else if !env.recovery.settled then Fail(Do(s, Requested), NotSettled)
    else if IsAnswer(reply) then Progress(Do(s, Requested), Some(Recovered(Assistant(reply.text, []))))
    else if !durable then Fail(Do(Do(s, Requested), Pushed(Notice(env))), RecoveryFailed)
    else if !env.recovery.noticeAccepted then Fail(Do(s, Requested), NoticeRejected)
    else Fail(Do(Do(Do(s, Requested), Acked(Notice(env))), Pushed(Notice(env))), RecoveryFailed)
  }

  /** What the progress guard makes of a round whose results are all appended. */
  function Guarded(env: Environment, durable: bool, r: nat, s: State): Progress {
    if env.stopped(r) && !env.recovers(r) then Fail(s, GuardStopped)
    else if env.recovers(r) then Recover(env, durable, s)
    else Progress(s, None)
  }

  /** What a round with tool calls does once it has its reply. */
  function ToolRound(env: Environment, durable: bool, r: nat, message: Message, s: State): Progress
    requires message.Assistant?
  {
    var head := Append(env, durable, r, message, s);
    if head.end.Some? then head
    else
      var tools := InvokeAll(env, durable, r, message.calls, 0, head.state);
      if tools.end.Some? then tools else Guarded(env, durable, r, tools.state)
  }

  function Round(env: Environment, durable: bool, r: nat, s: State): Progress {
    if !env.prepared(r) then Fail(s, NotPrepared)
    else
      var requested := Do(s, Requested);
      match env.reply(r)
      case ProviderError => Fail(requested, ProviderFailed)
      case Answer(text, calls) =>
        if !env.settled(r) then Fail(requested, NotSettled)
        else if calls == [] then Progress(requested, Some(Completed(Assistant(text, calls))))
        else ToolRound(env, durable, r, Assistant(text, calls), requested)
  }

  /** One round from a state. */
  type RoundStep = (nat, State) -> Progress

  function RoundOf(env: Environment, durable: bool): RoundStep {
    (r: nat, s: State) => Round(env, durable, r, s)
  }

  /** Round after round, at most up to `limit`. */
  function Rounds(round: RoundStep, r: nat, limit: nat, s: State): Progress
    requires r <= limit
    decreases limit - r
  {
    if r == limit then Progress(s, Some(RoundBudgetReached(limit)))
    else
      var p := round(r, s);
      if p.end.Some? then p else Rounds(round, r + 1, limit, p.state)
  }

  /** `run_turn_inner`. */
  function Turn(env: Environment, durable: bool, limit: nat, s: State): Progress {
    if limit == 0 then Fail(s, NoRounds)
    else if env.halted && !env.recovering then Fail(s, GuardStopped)
    else if env.recovering then Recover(env, durable, s)
    else Rounds(RoundOf(env, durable), 0, limit, s)
  }

  // ---------------------------------------------------------------- the turn in place

  class Conversation {
    var messages: seq<Message>
    ghost var acks: seq<Message>
    ghost var past: seq<Instant>

    ghost function View(): State
      reads this
    {
      State(messages, acks, past)
    }

    constructor (history: seq<Message>)
      ensures View() == State(history, history, [])
    {
      messages := history;
      acks := history;
      past := [];
    }

    /** `messages.push`. */
    method Push(message: Message)
      modifies this
      ensures View() == Do(old(View()), Pushed(message))
    {
      past := past + [Instant(Pushed(message), messages, acks)];
      messages := messages + [message];
    }

    /** A step that leaves memory alone. */
    ghost method Note(step: Step)
      requires !step.Pushed?
      modifies this`acks, this`past
      ensures View() == Do(old(View()), step)
    {
      past := past + [Instant(step, messages, acks)];
      if step.Acked? {
        acks := acks + [step.message];
      }
    }

    method RecordResult(env: Environment, durable: bool, r: nat, j: nat, call: Call, raw: string)
      returns (end: Option<Outcome>)
      requires raw == RawOutput(env, r, j)
      modifies this
      ensures Progress(View(), end) == Finish(env, durable, r, j, call, old(View()))
    {
      var output := raw;
      if !durable {
        var recorded := env.recorded(r, j, raw);
        if recorded.None? {
          return Some(Failed(NotRetained));
        }
        output := recorded.value;
      }
      var message := ToolResult(call.id, output);
      if durable {
        if !env.resultAccepted(r, j) {
          return Some(Failed(ResultRejected));
        }
        Note(Acked(message));
        if !env.resultObserved(r, j) {
          return Some(Failed(BoundaryFailed));
        }
      }
      Push(message);
      end := None;
    }

    method InvokeTool(env: Environment, durable: bool, r: nat, j: nat, call: Call) returns (end: Option<Outcome>)
      modifies this
      ensures Progress(View(), end) == Invoke(env, durable, r, j, call, old(View()))
    {
      var result: string;
      if env.blocked(r, j).Some? {
        result := env.blocked(r, j).value;
      } else {
        Note(Dispatched(call));
        if durable && env.executorFails(r, j) {
          return Some(Failed(ExecutorFailed));
        }
        result := env.output(r, j);
      }
      end := RecordResult(env, durable, r, j, call, result);
    }

    method InvokeTools(env: Environment, durable: bool, r: nat, calls: seq<Call>) returns (end: Option<Outcome>)
      modifies this
      ensures Progress(View(), end) == InvokeAll(env, durable, r, calls, 0, old(View()))
    {
      for j := 0 to |calls|
        invariant InvokeAll(env, durable, r, calls, j, View()) == InvokeAll(env, durable, r, calls, 0, old(View()))
      {
        end := InvokeTool(env, durable, r, j, calls[j]);
        if end.Some? {
          return;
        }
      }
      end := None;
    }

    method AppendAssistant(env: Environment, durable: bool, r: nat, message: Message) returns (end: Option<Outcome>)
      modifies this
      ensures Progress(View(), end) == Append(env, durable, r, message, old(View()))
    {
      if durable {
        if !env.assistantAccepted(r) {
          return Some(Failed(AssistantRejected));
        }
        Note(Acked(message));
        Push(message);
        if !env.stepStarted(r) {
          return Some(Failed(StepRejected));
        }
      } else {
        Push(message);
      }
      end := None;
    }

    method RecoverAnswer(env: Environment, durable: bool) returns (outcome: Outcome)
      modifies this
      ensures Progress(View(), Some(outcome)) == Recover(env, durable, old(View()))
    {
      if !env.recovery.prepared {
        return Failed(NotPrepared);
      }
      Note(Requested);
      if !env.recovery.settled {
        return Failed(NotSettled);
      }
      if IsAnswer(env.recovery.reply) {
        return Recovered(Assistant(env.recovery.reply.text, []));
      }
      if durable {
        if !env.recovery.noticeAccepted {
          return Failed(NoticeRejected);
        }
        Note(Acked(Notice(env)));
      }
      Push(Notice(env));
      outcome := Failed(RecoveryFailed);
    }

    method RunTools(env: Environment, durable: bool, r: nat, message: Message) returns (end: Option<Outcome>)
      requires message.Assistant?
      modifies this
      ensures Progress(View(), end) == ToolRound(env, durable, r, message, old(View()))
    {
      end := AppendAssistant(env, durable, r, message);
      if end.Some? {
        return;
      }
      end := InvokeTools(env, durable, r, message.calls);
      if end.Some? {
        return;
      }
      if env.stopped(r) && !env.recovers(r) {
        return Some(Failed(GuardStopped));
      }
      if env.recovers(r) {
        var outcome := RecoverAnswer(env, durable);
        return Some(outcome);
      }
    }

    method RunRound(env: Environment, durable: bool, r: nat) returns (end: Option<Outcome>)
      modifies this
      ensures Progress(View(), end) == Round(env, durable, r, old(View()))
    {
      if !env.prepared(r) {
        return Some(Failed(NotPrepared));
      }
      Note(Requested);
      var reply := env.reply(r);
      if reply.ProviderError? {
        return Some(Failed(ProviderFailed));
      }
      if !env.settled(r) {
        return Some(Failed(NotSettled));
      }
      var message := Assistant(reply.text, reply.calls);
      if reply.calls == [] {
        return Some(Completed(message));
      }
      end := RunTools(env, durable, r, message);
    }

    /** `run_turn_inner`. */
    method RunTurn(env: Environment, durable: bool, limit: nat) returns (outcome: Outcome)
      modifies this
      ensures Progress(View(), Some(outcome)) == Turn(env, durable, limit, old(View()))
    {
      if limit == 0 {
        return Failed(NoRounds);
      }
      if env.halted && !env.recovering {
        return Failed(GuardStopped);
      }
      if env.recovering {
        outcome := RecoverAnswer(env, durable);
        return;
      }
      for r := 0 to limit
        invariant Rounds(RoundOf(env, durable), r, limit, View())
                  == Rounds(RoundOf(env, durable), 0, limit, old(View()))
      {
        var end := RunRound(env, durable, r);
        if end.Some? {
          return end.value;
        }
      }
      outcome := RoundBudgetReached(limit);
    }
  }
}
