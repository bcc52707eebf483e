/** What every native turn keeps, whatever its environment answers. */
module AgentTurnProperties {
  import opened Common
  import opened AgentTurn

  // ---------------------------------------------------------------- durable history leads memory

  /** Memory is a prefix of the durable history, at most one message behind. */
  predicate Follows(messages: seq<Message>, acks: seq<Message>) {
    messages <= acks && |acks| <= |messages| + 1
  }

  /** Requests and tools start only from a memory that is all durable. */
  predicate GoodInstant(i: Instant) {
    Follows(i.messages, i.acks) && (i.step.Requested? || i.step.Dispatched? ==> i.messages == i.acks)
  }

  predicate GoodPast(s: State) {
    forall i :: 0 <= i < |s.past| ==> GoodInstant(s.past[i])
  }

  predicate Level(s: State) {
    GoodPast(s) && s.messages == s.acks
  }

  /** The progress keeps every instant good and, unless it fails the turn, is level. */
  predicate Orderly(p: Progress) {
    && GoodPast(p.state) && Follows(p.state.messages, p.state.acks)
    && (p.end.None? || !p.end.value.Failed? ==> p.state.messages == p.state.acks)
  }

  lemma QuietStep(s: State, step: Step)
    requires Level(s) && (step.Requested? || step.Dispatched?)
    ensures Level(Do(s, step))
  {
  }

  lemma CommitStep(s: State, message: Message)
    requires Level(s)
    ensures GoodPast(Do(s, Acked(message))) && Follows(Do(s, Acked(message)).messages, Do(s, Acked(message)).acks)
    ensures Level(Do(Do(s, Acked(message)), Pushed(message)))
  {
  }

  lemma FinishOrderly(env: Environment, r: nat, j: nat, call: Call, s: State)
    requires Level(s)
    ensures Orderly(Finish(env, true, r, j, call, s))
  {
    CommitStep(s, ToolResult(call.id, RawOutput(env, r, j)));
  }

  lemma InvokeOrderly(env: Environment, r: nat, j: nat, call: Call, s: State)
    requires Level(s)
    ensures Orderly(Invoke(env, true, r, j, call, s))
  {
    QuietStep(s, Dispatched(call));
    FinishOrderly(env, r, j, call, s);
    FinishOrderly(env, r, j, call, Do(s, Dispatched(call)));
  }

  lemma {:induction false} InvokeAllOrderly(env: Environment, r: nat, calls: seq<Call>, j: nat, s: State)
    requires j <= |calls| && Level(s)
    ensures Orderly(InvokeAll(env, true, r, calls, j, s))
    decreases |calls| - j
  {
    if j < |calls| {
      InvokeOrderly(env, r, j, calls[j], s);
      var p := Invoke(env, true, r, j, calls[j], s);
      if p.end.None? {
        InvokeAllOrderly(env, r, calls, j + 1, p.state);
      }
    }
  }

  lemma RecoverOrderly(env: Environment, s: State)
    requires Level(s)
    ensures Orderly(Recover(env, true, s))
  {
    QuietStep(s, Requested);
    CommitStep(Do(s, Requested), Notice(env));
  }

  lemma ToolRoundOrderly(env: Environment, r: nat, message: Message, s: State)
    requires Level(s) && message.Assistant?
    ensures Orderly(ToolRound(env, true, r, message, s))
  {
    CommitStep(s, message);
    var head := Append(env, true, r, message, s);
    if head.end.None? {
      InvokeAllOrderly(env, r, message.calls, 0, head.state);
      var tools := InvokeAll(env, true, r, message.calls, 0, head.state);
      if tools.end.None? {
        RecoverOrderly(env, tools.state);
      }
    }
  }

  lemma RoundOrderly(env: Environment, r: nat, s: State)
    requires Level(s)
    ensures Orderly(Round(env, true, r, s))
  {
    QuietStep(s, Requested);
    if env.reply(r).Answer? {
      ToolRoundOrderly(env, r, AssistantOf(env, r), Do(s, Requested));
    }
  }

  lemma {:induction false} RoundsOrderly(round: RoundStep, r: nat, limit: nat, s: State)
    requires r <= limit && Level(s)
    requires forall i: nat, t: State :: Level(t) ==> Orderly(round(i, t))
    ensures Orderly(Rounds(round, r, limit, s))
    decreases limit - r
  {
    if r < limit {
      var p := round(r, s);
      if p.end.None? {
        RoundsOrderly(round, r + 1, limit, p.state);
      }
    }
  }

  /** At every instant of a durable turn memory is a prefix of the acknowledged history, at
      most one message behind; provider requests and tools only ever start when the two are
      level; and every turn that does not fail ends with them level. */
  lemma DurableHistoryLeads(env: Environment, limit: nat, history: seq<Message>)
    ensures Orderly(Turn(env, true, limit, State(history, history, [])))
  {
    forall i: nat, t: State | Level(t) ensures Orderly(RoundOf(env, true)(i, t)) {
      RoundOrderly(env, i, t);
    }
    RoundsOrderly(RoundOf(env, true), 0, limit, State(history, history, []));
    RecoverOrderly(env, State(history, history, []));
  }

  // ---------------------------------------------------------------- what a turn appends

  /** The output a call of round `r` is recorded with. */
  function Output(env: Environment, durable: bool, r: nat, j: nat): string {
    var raw := RawOutput(env, r, j);
    if durable then raw
    else match env.recorded(r, j, raw)
      case None => ""
      case Some(kept) => kept
  }

  /** One result per requested call, in order, from call `j`. */
  function Results(env: Environment, durable: bool, r: nat, calls: seq<Call>, j: nat): seq<Message>
    requires j <= |calls|
  {
    seq(|calls| - j, i requires 0 <= i < |calls| - j => ToolResult(calls[j + i].id, Output(env, durable, r, j + i)))
  }

  function AssistantOf(env: Environment, r: nat): (m: Message)
    ensures m.Assistant?
  {
    match env.reply(r)
    case ProviderError => Assistant("", [])
    case Answer(text, calls) => Assistant(text, calls)
  }

  /** A completed round: the assistant message, then the results of its calls. */
  function RoundMessages(env: Environment, durable: bool): nat -> seq<Message> {
    (r: nat) => [AssistantOf(env, r)] + Results(env, durable, r, AssistantOf(env, r).calls, 0)
  }

  /** The messages of rounds r, r + 1, .., stop - 1. */
  function Transcript(messages: nat -> seq<Message>, r: nat, stop: nat): seq<Message>
    requires r <= stop
    decreases stop - r
  {
    if r == stop then [] else messages(r) + Transcript(messages, r + 1, stop)
  }

  /** From memory `base` the progress appended a beginning of `ms`, and all of it if it goes on. */
  predicate Appends(base: seq<Message>, p: Progress, ms: seq<Message>) {
    base <= p.state.messages <= base + ms && (p.end.None? ==> p.state.messages == base + ms)
  }

  lemma AppendsMore(base: seq<Message>, a: seq<Message>, p: Progress, b: seq<Message>)
    requires Appends(base + a, p, b)
    ensures Appends(base, p, a + b)
  {
    assert (base + a) + b == base + (a + b);
  }

  lemma AppendsLess(base: seq<Message>, a: seq<Message>, p: Progress, b: seq<Message>)
    requires Appends(base, p, a) && p.end.Some?
    ensures Appends(base, p, a + b)
  {
    assert (base + a) + b == base + (a + b);
  }

  predicate FailsInTools(outcome: Outcome) {
    outcome.Failed? && outcome.why != AssistantRejected && outcome.why != RecoveryFailed
  }

  lemma InvokeAppends(env: Environment, durable: bool, r: nat, j: nat, call: Call, s: State)
    ensures Appends(s.messages, Invoke(env, durable, r, j, call, s), [ToolResult(call.id, Output(env, durable, r, j))])
    ensures var end := Invoke(env, durable, r, j, call, s).end; end.Some? ==> FailsInTools(end.value)
  {
  }

  lemma ResultsUnfold(env: Environment, durable: bool, r: nat, calls: seq<Call>, j: nat)
    requires j < |calls|
    ensures Results(env, durable, r, calls, j)
         == [ToolResult(calls[j].id, Output(env, durable, r, j))] + Results(env, durable, r, calls, j + 1)
  {
  }

  lemma {:induction false} InvokeAllAppends(env: Environment, durable: bool, r: nat, calls: seq<Call>, j: nat, s: State)
    requires j <= |calls|
    ensures Appends(s.messages, InvokeAll(env, durable, r, calls, j, s), Results(env, durable, r, calls, j))
    ensures var end := InvokeAll(env, durable, r, calls, j, s).end; end.Some? ==> FailsInTools(end.value)
    decreases |calls| - j
  {
    if j < |calls| {
      var p := Invoke(env, durable, r, j, calls[j], s);
      var one := [ToolResult(calls[j].id, Output(env, durable, r, j))];
      var rest := Results(env, durable, r, calls, j + 1);
      InvokeAppends(env, durable, r, j, calls[j], s);
      ResultsUnfold(env, durable, r, calls, j);
      if p.end.None? {
        InvokeAllAppends(env, durable, r, calls, j + 1, p.state);
        AppendsMore(s.messages, one, InvokeAll(env, durable, r, calls, j + 1, p.state), rest);
      } else {
        AppendsLess(s.messages, one, p, rest);
      }
    }
  }

  /** A text that is not blank, and no calls. */
  predicate IsRecovered(message: Message) {
    message.Assistant? && message.calls == [] && !Blank(message.text)
  }

  /** From memory `base` recovery ends the turn: with an answer that memory does not take, with
      the notice that it does, or leaving memory alone. */
  predicate RecoverShape(base: seq<Message>, p: Progress, notice: Message) {
    && p.end.Some?
    && match p.end.value
       case Recovered(message) => p.state.messages == base && IsRecovered(message)
       case Failed(why) =>
         && why != AssistantRejected
         && p.state.messages == if why == RecoveryFailed then base + [notice] else base
       case _ => false
  }

  lemma RecoverAppends(env: Environment, durable: bool, s: State)
    ensures RecoverShape(s.messages, Recover(env, durable, s), Notice(env))
  {
  }

  /** What one round can leave. */
  predicate RoundShape(base: seq<Message>, p: Progress, ms: seq<Message>, answer: Message, notice: Message) {
    match p.end
    case None => p.state.messages == base + ms
    case Some(Completed(message)) =>
      p.state.messages == base && message == answer && message.Assistant? && message.calls == []
    case Some(Recovered(message)) => p.state.messages == base + ms && IsRecovered(message)
    case Some(RoundBudgetReached(_)) => false
    case Some(Failed(why)) =>
      if why == RecoveryFailed then p.state.messages == base + ms + [notice]
      else base <= p.state.messages <= base + ms && (why == AssistantRejected ==> p.state.messages == base)
  }

  lemma GuardedAppends(env: Environment, durable: bool, r: nat, base: seq<Message>, tools: Progress, ms: seq<Message>,
                       answer: Message)
    requires tools.end.None? && Appends(base, tools, ms)
    ensures RoundShape(base, Guarded(env, durable, r, tools.state), ms, answer, Notice(env))
  {
    RecoverAppends(env, durable, tools.state);
  }

  lemma ToolRoundAppends(env: Environment, durable: bool, r: nat, message: Message, s: State)
    requires message.Assistant?
    ensures RoundShape(s.messages, ToolRound(env, durable, r, message, s),
                       [message] + Results(env, durable, r, message.calls, 0), message, Notice(env))
  {
    var head := Append(env, durable, r, message, s);
    var results := Results(env, durable, r, message.calls, 0);
    assert Appends(s.messages, head, [message]);
    if head.end.None? {
      var tools := InvokeAll(env, durable, r, message.calls, 0, head.state);
      InvokeAllAppends(env, durable, r, message.calls, 0, head.state);
      AppendsMore(s.messages, [message], tools, results);
      if tools.end.None? {
        GuardedAppends(env, durable, r, s.messages, tools, [message] + results, message);
      }
    } else {
      AppendsLess(s.messages, [message], head, results);
    }
  }

  lemma RoundAppends(env: Environment, durable: bool, r: nat, s: State)
    ensures RoundShape(s.messages, Round(env, durable, r, s), RoundMessages(env, durable)(r), AssistantOf(env, r),
                       Notice(env))
  {
    if env.reply(r).Answer? {
      ToolRoundAppends(env, durable, r, AssistantOf(env, r), Do(s, Requested));
    }
  }

  /** How many rounds from `r` run to their end. */
  function CompleteRounds(round: RoundStep, r: nat, limit: nat, s: State): (k: nat)
    requires r <= limit
    ensures r + k <= limit
    decreases limit - r
  {
    if r == limit || round(r, s).end.Some? then 0 else 1 + CompleteRounds(round, r + 1, limit, round(r, s).state)
  }

  /** From memory `base` a turn ended as `p` in round `stop`: the rounds before appended
      `whole`, and with the messages of round `stop` they would be `next`. */
  predicate Shape(base: seq<Message>, p: Progress, answer: Message, notice: Message, stop: nat, limit: nat,
                  whole: seq<Message>, next: seq<Message>)
  {
    && p.end.Some?
    && match p.end.value
       case Completed(message) =>
         && stop < limit && p.state.messages == base + whole
         && message == answer && message.Assistant? && message.calls == []
       case Recovered(message) => stop < limit && p.state.messages == base + next && IsRecovered(message)
       case RoundBudgetReached(rounds) => stop == limit == rounds && p.state.messages == base + whole
       case Failed(why) =>
         && stop < limit
         && if why == RecoveryFailed then p.state.messages == base + next + [notice]
            else
              && base + whole <= p.state.messages <= base + next
              && (why == AssistantRejected ==> p.state.messages == base + whole)
  }

  lemma ShapeAfter(base: seq<Message>, round: seq<Message>, p: Progress, answer: Message, notice: Message, stop: nat,
                   limit: nat, whole: seq<Message>, next: seq<Message>)
    requires Shape(base + round, p, answer, notice, stop, limit, whole, next)
    ensures Shape(base, p, answer, notice, stop, limit, round + whole, round + next)
  {
    assert (base + round) + whole == base + (round + whole);
    assert (base + round) + next == base + (round + next);
  }

  lemma SingleRound(messages: nat -> seq<Message>, r: nat)
    ensures Transcript(messages, r, r) == []
    ensures Transcript(messages, r, r + 1) == messages(r)
  {
    assert Transcript(messages, r + 1, r + 1) == [];
  }

  lemma LastRound(base: seq<Message>, p: Progress, ms: seq<Message>, answer: Message, notice: Message, r: nat,
                  limit: nat)
    requires r < limit && RoundShape(base, p, ms, answer, notice) && p.end.Some?
    ensures Shape(base, p, answer, notice, r, limit, [], ms)
  {
    assert base + [] == base;
  }

  /** What the rounds from `r` append, and where they stop. */
  predicate AppendsRounds(round: RoundStep, messages: nat -> seq<Message>, answers: nat -> Message,
                          notice: Message, r: nat, limit: nat, s: State)
    requires r <= limit
  {
    var stop := r + CompleteRounds(round, r, limit, s);
    Shape(s.messages, Rounds(round, r, limit, s), answers(stop), notice, stop, limit,
          Transcript(messages, r, stop), Transcript(messages, r, stop + 1))
  }

  lemma TranscriptUnfolds(messages: nat -> seq<Message>, r: nat, stop: nat)
    requires r < stop
    ensures Transcript(messages, r, stop) == messages(r) + Transcript(messages, r + 1, stop)
  {
  }

  lemma LastAppends(round: RoundStep, messages: nat -> seq<Message>, answers: nat -> Message, notice: Message,
                    r: nat, limit: nat, s: State)
    requires r < limit && RoundShape(s.messages, round(r, s), messages(r), answers(r), notice) && round(r, s).end.Some?
    ensures AppendsRounds(round, messages, answers, notice, r, limit, s)
  {
    SingleRound(messages, r);
    LastRound(s.messages, round(r, s), messages(r), answers(r), notice, r, limit);
  }

  lemma RoundThenRest(round: RoundStep, messages: nat -> seq<Message>, answers: nat -> Message, notice: Message,
                      r: nat, limit: nat, s: State)
    requires r < limit && round(r, s).end.None? && round(r, s).state.messages == s.messages + messages(r)
    requires AppendsRounds(round, messages, answers, notice, r + 1, limit, round(r, s).state)
    ensures AppendsRounds(round, messages, answers, notice, r, limit, s)
  {
    var t := round(r, s).state;
    var stop := r + 1 + CompleteRounds(round, r + 1, limit, t);
    TranscriptUnfolds(messages, r, stop);
    TranscriptUnfolds(messages, r, stop + 1);
    ShapeAfter(s.messages, messages(r), Rounds(round, r + 1, limit, t), answers(stop), notice, stop, limit,
               Transcript(messages, r + 1, stop), Transcript(messages, r + 1, stop + 1));
  }

  lemma {:induction false} RoundsAppend(round: RoundStep, messages: nat -> seq<Message>, answers: nat -> Message,
                                        notice: Message, r: nat, limit: nat, s: State)
    requires r <= limit && Shaped(round, messages, answers, notice)
    ensures AppendsRounds(round, messages, answers, notice, r, limit, s)
    decreases limit - r
  {
    if r == limit {
      SingleRound(messages, r);
      assert s.messages + [] == s.messages;
    } else {
      assert RoundShape(s.messages, round(r, s), messages(r), answers(r), notice);
      if round(r, s).end.Some? {
        LastAppends(round, messages, answers, notice, r, limit, s);
      } else {
        RoundsAppend(round, messages, answers, notice, r + 1, limit, round(r, s).state);
        RoundThenRest(round, messages, answers, notice, r, limit, s);
      }
    }
  }

  /** A round function all of whose rounds have their messages and answers. */
  ghost predicate Shaped(round: RoundStep, messages: nat -> seq<Message>, answers: nat -> Message, notice: Message) {
    forall i: nat, t: State :: RoundShape(t.messages, round(i, t), messages(i), answers(i), notice)
  }

  lemma RoundsShaped(env: Environment, durable: bool)
    ensures Shaped(RoundOf(env, durable), RoundMessages(env, durable), Answers(env), Notice(env))
  {
    forall i: nat, t: State
      ensures RoundShape(t.messages, RoundOf(env, durable)(i, t), RoundMessages(env, durable)(i), Answers(env)(i),
                         Notice(env))
    {
      RoundAppends(env, durable, i, t);
    }
  }

  function Answers(env: Environment): nat -> Message {
    (r: nat) => AssistantOf(env, r)
  }

  /** What a turn appends: whole rounds, each an assistant message and one result per call in
      order, then at most the beginning of one more round.  A completed turn stops exactly
      between rounds and does not append its answer; so does a recovered one, behind the round
      that made recovery needed; a failed recovery appends one notice there; an exhausted
      budget means exactly `limit` rounds; a rejected assistant commit leaves whole rounds
      only.  A turn that begins with recovery appends nothing but that notice. */
  lemma TurnAppendsRounds(env: Environment, durable: bool, limit: nat, s: State)
    requires limit > 0 && (env.halted ==> env.recovering)
    ensures env.recovering ==> RecoverShape(s.messages, Turn(env, durable, limit, s), Notice(env))
    ensures !env.recovering ==> Turn(env, durable, limit, s) == Rounds(RoundOf(env, durable), 0, limit, s)
    ensures !env.recovering ==>
              AppendsRounds(RoundOf(env, durable), RoundMessages(env, durable), Answers(env), Notice(env), 0, limit, s)
  {
    RecoverAppends(env, durable, s);
    RoundsShaped(env, durable);
    RoundsAppend(RoundOf(env, durable), RoundMessages(env, durable), Answers(env), Notice(env), 0, limit, s);
  }

  // ---------------------------------------------------------------- tools follow their request

  /** Some message among `ms` requested the call. */
  predicate RequestedIn(ms: seq<Message>, call: Call) {
    exists m :: m in ms && m.Assistant? && call in m.calls
  }

  predicate Grounded(s: State) {
    forall i :: 0 <= i < |s.past| && s.past[i].step.Dispatched? ==> RequestedIn(s.past[i].messages, s.past[i].step.call)
  }

  lemma InvokeGrounded(env: Environment, durable: bool, r: nat, j: nat, call: Call, s: State)
    requires Grounded(s) && RequestedIn(s.messages, call)
    ensures Grounded(Invoke(env, durable, r, j, call, s).state)
  {
  }

  lemma {:induction false} InvokeAllGrounded(env: Environment, durable: bool, r: nat, message: Message, j: nat,
                                             s: State)
    requires message.Assistant? && j <= |message.calls| && Grounded(s) && message in s.messages
    ensures Grounded(InvokeAll(env, durable, r, message.calls, j, s).state)
    decreases |message.calls| - j
  {
    if j < |message.calls| {
      InvokeGrounded(env, durable, r, j, message.calls[j], s);
      InvokeAppends(env, durable, r, j, message.calls[j], s);
      var p := Invoke(env, durable, r, j, message.calls[j], s);
      if p.end.None? {
        InvokeAllGrounded(env, durable, r, message, j + 1, p.state);
      }
    }
  }

  lemma RecoverGrounded(env: Environment, durable: bool, s: State)
    requires Grounded(s)
    ensures Grounded(Recover(env, durable, s).state)
  {
  }

  lemma ToolRoundGrounded(env: Environment, durable: bool, r: nat, message: Message, s: State)
    requires message.Assistant? && Grounded(s)
    ensures Grounded(ToolRound(env, durable, r, message, s).state)
  {
    var head := Append(env, durable, r, message, s);
    assert Grounded(head.state);
    if head.end.None? {
      InvokeAllGrounded(env, durable, r, message, 0, head.state);
      RecoverGrounded(env, durable, InvokeAll(env, durable, r, message.calls, 0, head.state).state);
    }
  }

  lemma RoundGrounded(env: Environment, durable: bool, r: nat, s: State)
    requires Grounded(s)
    ensures Grounded(Round(env, durable, r, s).state)
  {
    assert Grounded(Do(s, Requested));
    if env.reply(r).Answer? {
      ToolRoundGrounded(env, durable, r, AssistantOf(env, r), Do(s, Requested));
    }
  }

  lemma {:induction false} RoundsGrounded(round: RoundStep, r: nat, limit: nat, s: State)
    requires r <= limit && Grounded(s)
    requires forall i: nat, t: State :: Grounded(t) ==> Grounded(round(i, t).state)
    ensures Grounded(Rounds(round, r, limit, s).state)
    decreases limit - r
  {
    if r < limit && round(r, s).end.None? {
      RoundsGrounded(round, r + 1, limit, round(r, s).state);
    }
  }

  /** Every tool that runs was requested by an assistant message already in memory (and, in
      a durable turn, by DurableHistoryLeads, already acknowledged). */
  lemma ToolsFollowTheirRequest(env: Environment, durable: bool, limit: nat, history: seq<Message>)
    ensures Grounded(Turn(env, durable, limit, State(history, history, [])).state)
  {
    forall i: nat, t: State | Grounded(t) ensures Grounded(RoundOf(env, durable)(i, t).state) {
      RoundGrounded(env, durable, i, t);
    }
    RoundsGrounded(RoundOf(env, durable), 0, limit, State(history, history, []));
    RecoverGrounded(env, durable, State(history, history, []));
  }

  // ---------------------------------------------------------------- tranches

  /** The environment as a later tranche meets it. */
  function Shifted(env: Environment, k: nat): Environment {
    Environment(
      false, false, (r: nat) => env.prepared(r + k), (r: nat) => env.reply(r + k), (r: nat) => env.settled(r + k),
      (r: nat) => env.assistantAccepted(r + k), (r: nat) => env.stepStarted(r + k),
      (r: nat, j: nat) => env.blocked(r + k, j), (r: nat, j: nat) => env.executorFails(r + k, j),
      (r: nat, j: nat) => env.output(r + k, j), (r: nat, j: nat, raw: string) => env.recorded(r + k, j, raw),
      (r: nat, j: nat) => env.resultAccepted(r + k, j), (r: nat, j: nat) => env.resultObserved(r + k, j),
      (r: nat) => env.stopped(r + k), (r: nat) => env.recovers(r + k), env.recovery)
  }

  lemma ShiftedInvoke(env: Environment, k: nat, durable: bool, r: nat, j: nat, call: Call, s: State)
    ensures Invoke(Shifted(env, k), durable, r, j, call, s) == Invoke(env, durable, r + k, j, call, s)
  {
  }

  lemma {:induction false} ShiftedInvokeAll(env: Environment, k: nat, durable: bool, r: nat, calls: seq<Call>, j: nat,
                                            s: State)
    requires j <= |calls|
    ensures InvokeAll(Shifted(env, k), durable, r, calls, j, s) == InvokeAll(env, durable, r + k, calls, j, s)
    decreases |calls| - j
  {
    if j < |calls| {
      ShiftedInvoke(env, k, durable, r, j, calls[j], s);
      var p := Invoke(env, durable, r + k, j, calls[j], s);
      if p.end.None? {
        ShiftedInvokeAll(env, k, durable, r, calls, j + 1, p.state);
      }
    }
  }

  lemma ShiftedToolRound(env: Environment, k: nat, durable: bool, r: nat, message: Message, s: State)
    requires message.Assistant?
    ensures ToolRound(Shifted(env, k), durable, r, message, s) == ToolRound(env, durable, r + k, message, s)
  {
    var head := Append(env, durable, r + k, message, s);
    assert Append(Shifted(env, k), durable, r, message, s) == head;
    ShiftedInvokeAll(env, k, durable, r, message.calls, 0, head.state);
  }

  lemma ShiftedRound(env: Environment, k: nat, durable: bool, r: nat, s: State)
    ensures Round(Shifted(env, k), durable, r, s) == Round(env, durable, r + k, s)
  {
    if env.reply(r + k).Answer? {
      ShiftedToolRound(env, k, durable, r, AssistantOf(env, r + k), Do(s, Requested));
    }
  }

  /** The same, a tranche counting its own rounds. */
  predicate SameProgress(a: Progress, b: Progress) {
    && a.state == b.state
    && (a.end == b.end
        || (a.end.Some? && b.end.Some? && a.end.value.RoundBudgetReached? && b.end.value.RoundBudgetReached?))
  }

  lemma {:induction false} ShiftedRounds(later: RoundStep, round: RoundStep, k: nat, r: nat, limit: nat, s: State)
    requires r <= limit
    requires Continues(later, round, k)
    ensures SameProgress(Rounds(later, r, limit, s), Rounds(round, r + k, limit + k, s))
    decreases limit - r
  {
    if r < limit {
      var p := later(r, s);
      if p.end.None? {
        ShiftedRounds(later, round, k, r + 1, limit, p.state);
      }
    }
  }

  lemma {:induction false} BudgetThenRest(round: RoundStep, r: nat, a: nat, limit: nat, s: State)
    requires r <= a <= limit && Rounds(round, r, a, s).end == Some(RoundBudgetReached(a))
    requires NeverExhausts(round, a)
    ensures Rounds(round, r, limit, s) == Rounds(round, a, limit, Rounds(round, r, a, s).state)
    decreases a - r
  {
    if r < a {
      BudgetThenRest(round, r + 1, a, limit, round(r, s).state);
    }
  }

  /** `later` is `round` from round k on. */
  ghost predicate Continues(later: RoundStep, round: RoundStep, k: nat) {
    forall i: nat, t: State :: later(i, t) == round(i + k, t)
  }

  ghost predicate NeverExhausts(round: RoundStep, a: nat) {
    forall i: nat, t: State :: round(i, t).end != Some(RoundBudgetReached(a))
  }

  lemma ShiftedStep(later: RoundStep, round: RoundStep, env: Environment, durable: bool, k: nat, i: nat, t: State)
    requires later == RoundOf(Shifted(env, k), durable) && round == RoundOf(env, durable)
    ensures later(i, t) == round(i + k, t)
  {
    ShiftedRound(env, k, durable, i, t);
  }

  lemma LaterRounds(later: RoundStep, round: RoundStep, env: Environment, durable: bool, k: nat)
    requires later == RoundOf(Shifted(env, k), durable) && round == RoundOf(env, durable)
    ensures Continues(later, round, k)
  {
    forall i: nat, t: State ensures later(i, t) == round(i + k, t) {
      ShiftedStep(later, round, env, durable, k, i, t);
    }
  }

  lemma NoRoundExhausts(env: Environment, durable: bool, a: nat)
    ensures NeverExhausts(RoundOf(env, durable), a)
  {
    forall i: nat, t: State ensures RoundOf(env, durable)(i, t).end != Some(RoundBudgetReached(a)) {
      RoundAppends(env, durable, i, t);
    }
  }

  lemma RoundsCompose(round: RoundStep, later: RoundStep, a: nat, b: nat, s: State)
    requires Continues(later, round, a) && NeverExhausts(round, a)
    requires Rounds(round, 0, a, s).end == Some(RoundBudgetReached(a))
    ensures SameProgress(Rounds(later, 0, b, Rounds(round, 0, a, s).state), Rounds(round, 0, a + b, s))
  {
    BudgetThenRest(round, 0, a, a + b, s);
    ShiftedRounds(later, round, a, 0, b, Rounds(round, 0, a, s).state);
  }

  /** Splitting a turn into tranches changes nothing: when a tranche of `a` rounds exhausts
      its budget and the guard neither halts the next of `b` rounds nor has it recover, the two leave what
      one turn of a + b rounds leaves, every instant included, and end as it ends. */
  lemma TranchesCompose(env: Environment, durable: bool, a: nat, b: nat, s: State)
    requires a > 0 && b > 0 && Turn(env, durable, a, s).end == Some(RoundBudgetReached(a))
    ensures SameProgress(Turn(Shifted(env, a), durable, b, Turn(env, durable, a, s).state),
                         Turn(env, durable, a + b, s))
  {
    LaterRounds(RoundOf(Shifted(env, a), durable), RoundOf(env, durable), env, durable, a);
    NoRoundExhausts(env, durable, a);
    RoundsCompose(RoundOf(env, durable), RoundOf(Shifted(env, a), durable), a, b, s);
  }
}
