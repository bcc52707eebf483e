/** Which calls a turn runs, and what it records for each: exactly those it reaches that the
    progress guard does not answer, in order and once each; and how each answer of the
    environment ends a round. */
module AgentTurnCalls {
  import opened Common
  import opened AgentTurn
  import opened AgentTurnProperties
  import opened Text

  /** The calls that were run, in order. */
  function RunCalls(past: seq<Instant>): seq<Call> {
    if past == [] then []
    else
      var n := |past| - 1;
      RunCalls(past[..n]) + if past[n].step.Dispatched? then [past[n].step.call] else []
  }

  /** The calls of a round from the j-th up to the m-th that the guard lets through. */
  function Unblocked(env: Environment, r: nat, calls: seq<Call>, j: nat, m: nat): seq<Call>
    requires j <= m <= |calls|
    decreases m - j
  {
    if j == m then []
    else (if env.blocked(r, j).None? then [calls[j]] else []) + Unblocked(env, r, calls, j + 1, m)
  }

  /** The calls of rounds r up to stop that the guard lets through. */
  function UnblockedRounds(env: Environment, r: nat, stop: nat): seq<Call>
    requires r <= stop
    decreases stop - r
  {
    if r == stop then []
    else
      var calls := AssistantOf(env, r).calls;
      Unblocked(env, r, calls, 0, |calls|) + UnblockedRounds(env, r + 1, stop)
  }

  /** What is recorded for call j: the guard's refusal if it has one, else what the tool said;
      without durable services, what the recorder keeps of it. */
  predicate Records(env: Environment, durable: bool, r: nat, j: nat, call: Call, m: Message) {
    && m.ToolResult? && m.callId == call.id
    && match env.blocked(r, j)
       case Some(refusal) => if durable then m.output == refusal else env.recorded(r, j, refusal) == Some(m.output)
       case None =>
         var said := env.output(r, j);
         if durable then m.output == said else env.recorded(r, j, said) == Some(m.output)
  }

  /** Messages i.. are the records of the calls from j on. */
  predicate RecordsAll(env: Environment, durable: bool, r: nat, calls: seq<Call>, j: nat, ms: seq<Message>) {
    j + |ms| <= |calls| && forall i :: 0 <= i < |ms| ==> Records(env, durable, r, j + i, calls[j + i], ms[i])
  }

  // ---------------------------------------------------------------- one call

  lemma RunCallsOneMore(s: State, step: Step)
    ensures RunCalls(Do(s, step).past) == RunCalls(s.past) + if step.Dispatched? then [step.call] else []
  {
    assert Do(s, step).past[..|s.past|] == s.past;
  }

  lemma RunCallsQuiet(s: State, step: Step)
    requires !step.Dispatched?
    ensures RunCalls(Do(s, step).past) == RunCalls(s.past)
  {
    RunCallsOneMore(s, step);
  }

  lemma FinishRunsNothing(env: Environment, durable: bool, r: nat, j: nat, call: Call, s: State)
    ensures RunCalls(Finish(env, durable, r, j, call, s).state.past) == RunCalls(s.past)
  {
    var m := ToolResult(call.id, RawOutput(env, r, j));
    RunCallsQuiet(s, Acked(m));
    RunCallsQuiet(Do(s, Acked(m)), Pushed(m));
    match env.recorded(r, j, RawOutput(env, r, j))
    case None =>
    case Some(kept) => RunCallsQuiet(s, Pushed(ToolResult(call.id, kept)));
  }

  /** How call j of a round ends the turn, if it does: its executor fails, its result is not
      accepted or its boundary not observed; without durable services, its output is not kept. */
  function CallEnd(env: Environment, durable: bool, r: nat, j: nat): Option<Outcome> {
    var said := if env.blocked(r, j).Some? then env.blocked(r, j).value else env.output(r, j);
    if durable && env.blocked(r, j).None? && env.executorFails(r, j) then Some(Failed(ExecutorFailed))
    else if durable && !env.resultAccepted(r, j) then Some(Failed(ResultRejected))
    else if durable && !env.resultObserved(r, j) then Some(Failed(BoundaryFailed))
    else if !durable && env.recorded(r, j, said).None? then Some(Failed(NotRetained))
    else None
  }

  /** What the durable history gains: the record, if it was accepted. */
  predicate Acks(env: Environment, durable: bool, r: nat, j: nat, call: Call, s: State, p: Progress) {
    if durable && (p.end.None? || p.end == Some(Failed(BoundaryFailed))) then
      && |p.state.acks| == |s.acks| + 1 && s.acks <= p.state.acks
      && Records(env, durable, r, j, call, p.state.acks[|s.acks|])
    else p.state.acks == s.acks
  }

  /** How one reached call goes. */
  predicate CallGoes(env: Environment, durable: bool, r: nat, j: nat, call: Call, s: State, p: Progress) {
    && RunCalls(p.state.past) == RunCalls(s.past) + (if env.blocked(r, j).None? then [call] else [])
    && p.end == CallEnd(env, durable, r, j) && Acks(env, durable, r, j, call, s, p)
    && match p.end
       case None =>
         |p.state.messages| == |s.messages| + 1 && s.messages <= p.state.messages
         && Records(env, durable, r, j, call, p.state.messages[|s.messages|])
       case Some(end) => p.state.messages == s.messages && FailsInTools(end)
  }

  lemma FinishGoes(env: Environment, durable: bool, r: nat, j: nat, call: Call, s: State)
    ensures Acks(env, durable, r, j, call, s, Finish(env, durable, r, j, call, s))
    ensures (durable && env.blocked(r, j).None? && env.executorFails(r, j))
         || Finish(env, durable, r, j, call, s).end == CallEnd(env, durable, r, j)
    ensures var p := Finish(env, durable, r, j, call, s);
            match p.end
            case None =>
              |p.state.messages| == |s.messages| + 1 && s.messages <= p.state.messages
              && Records(env, durable, r, j, call, p.state.messages[|s.messages|])
            case Some(end) => p.state.messages == s.messages && FailsInTools(end)
  {
  }

  lemma InvokeGoes(env: Environment, durable: bool, r: nat, j: nat, call: Call, s: State)
    ensures CallGoes(env, durable, r, j, call, s, Invoke(env, durable, r, j, call, s))
  {
    RunCallsOneMore(s, Dispatched(call));
    FinishRunsNothing(env, durable, r, j, call, s);
    FinishRunsNothing(env, durable, r, j, call, Do(s, Dispatched(call)));
    FinishGoes(env, durable, r, j, call, s);
    FinishGoes(env, durable, r, j, call, Do(s, Dispatched(call)));
  }

  // ---------------------------------------------------------------- the calls of a round

  /** The calls from j on were reached up to the m-th: all of them and each recorded, or the last
      reached one is the first that ends the turn and only those before it are recorded. */
  predicate Reaches(env: Environment, durable: bool, r: nat, calls: seq<Call>, j: nat, s: State, p: Progress, m: nat) {
    && j <= m <= |calls| && s.messages <= p.state.messages
    && RunCalls(p.state.past) == RunCalls(s.past) + Unblocked(env, r, calls, j, m)
    && RecordsAll(env, durable, r, calls, j, p.state.messages[|s.messages|..])
    && (forall i :: j <= i < m - 1 ==> CallEnd(env, durable, r, i).None?)
    && p.end == (if j < m then CallEnd(env, durable, r, m - 1) else None)
    && if p.end.None? then m == |calls| && |p.state.messages| == |s.messages| + m - j
       else j < m && FailsInTools(p.end.value) && |p.state.messages| == |s.messages| + m - j - 1
  }

  lemma ReachesOn(env: Environment, durable: bool, r: nat, calls: seq<Call>, j: nat, s: State, p: Progress, q: Progress,
                  m: nat)
    requires j < |calls| && CallGoes(env, durable, r, j, calls[j], s, p) && p.end.None?
    requires Reaches(env, durable, r, calls, j + 1, p.state, q, m)
    ensures Reaches(env, durable, r, calls, j, s, q, m)
  {
    var old_, mid, new_ := s.messages, p.state.messages, q.state.messages;
    forall i | 0 <= i < |new_| - |old_| ensures Records(env, durable, r, j + i, calls[j + i], new_[|old_|..][i]) {
      if i == 0 {
        assert new_[|old_|] == mid[|old_|];
      } else {
        assert new_[|old_|..][i] == new_[|mid|..][i - 1];
        assert Records(env, durable, r, j + 1 + (i - 1), calls[j + 1 + (i - 1)], new_[|mid|..][i - 1]);
      }
    }
  }

  lemma ReachesOne(env: Environment, durable: bool, r: nat, calls: seq<Call>, j: nat, s: State, p: Progress)
    requires j < |calls| && CallGoes(env, durable, r, j, calls[j], s, p) && p.end.Some?
    ensures Reaches(env, durable, r, calls, j, s, p, j + 1)
  {
    assert Unblocked(env, r, calls, j + 1, j + 1) == [];
  }

  lemma {:induction false} InvokeAllReaches(env: Environment, durable: bool, r: nat, calls: seq<Call>, j: nat, s: State)
    returns (m: nat)
    requires j <= |calls|
    ensures Reaches(env, durable, r, calls, j, s, InvokeAll(env, durable, r, calls, j, s), m)
    decreases |calls| - j
  {
    m := j;
    if j < |calls| {
      var p := Invoke(env, durable, r, j, calls[j], s);
      InvokeGoes(env, durable, r, j, calls[j], s);
      if p.end.None? {
        m := InvokeAllReaches(env, durable, r, calls, j + 1, p.state);
        ReachesOn(env, durable, r, calls, j, s, p, InvokeAll(env, durable, r, calls, j + 1, p.state), m);
      } else {
        m := j + 1;
        ReachesOne(env, durable, r, calls, j, s, p);
      }
    }
  }

  /** Nothing ran. */
  predicate RunsNothing(s: State, p: Progress) {
    RunCalls(p.state.past) == RunCalls(s.past)
  }

  lemma RecoverRunsNothing(env: Environment, durable: bool, s: State)
    ensures RunsNothing(s, Recover(env, durable, s))
  {
    var a := Do(s, Requested);
    RunCallsQuiet(s, Requested);
    RunCallsQuiet(a, Pushed(Notice(env)));
    RunCallsQuiet(a, Acked(Notice(env)));
    RunCallsQuiet(Do(a, Acked(Notice(env))), Pushed(Notice(env)));
  }

  lemma AppendRunsNothing(env: Environment, durable: bool, r: nat, message: Message, s: State)
    ensures RunsNothing(s, Append(env, durable, r, message, s))
  {
    RunCallsQuiet(s, Pushed(message));
    RunCallsQuiet(s, Acked(message));
    RunCallsQuiet(Do(s, Acked(message)), Pushed(message));
  }

  /** The assistant message is accepted and its step started. */
  predicate Starts(env: Environment, durable: bool, r: nat) {
    durable ==> env.assistantAccepted(r) && env.stepStarted(r)
  }

  /** The guard's word on a round whose calls are all recorded: it stops the turn exactly if it
      stops and asks for no recovery, and lets it go on exactly if it does neither. */
  predicate GuardsAs(env: Environment, r: nat, end: Option<Outcome>) {
    && (end == Some(Failed(GuardStopped)) <==> env.stopped(r) && !env.recovers(r))
    && (end == None <==> !env.stopped(r) && !env.recovers(r))
  }

  lemma GuardedGuards(env: Environment, durable: bool, r: nat, s: State)
    ensures GuardsAs(env, r, Guarded(env, durable, r, s).end) && RunsNothing(s, Guarded(env, durable, r, s))
    ensures s.messages <= Guarded(env, durable, r, s).state.messages
  {
    RecoverRunsNothing(env, durable, s);
  }

  /** The failures that only a call can end with. */
  predicate OfTools(end: Outcome) {
    && end.Failed?
    && (end.why == ExecutorFailed || end.why == NotRetained || end.why == ResultRejected || end.why == BoundaryFailed)
  }

  lemma {:induction false} InvokeAllFailsOfTools(env: Environment, durable: bool, r: nat, calls: seq<Call>, j: nat,
                                                 s: State)
    requires j <= |calls|
    ensures var end := InvokeAll(env, durable, r, calls, j, s).end; end.Some? ==> OfTools(end.value)
    decreases |calls| - j
  {
    if j < |calls| && Invoke(env, durable, r, j, calls[j], s).end.None? {
      InvokeAllFailsOfTools(env, durable, r, calls, j + 1, Invoke(env, durable, r, j, calls[j], s).state);
    }
  }

  /** A message that is not accepted leaves nothing; one whose step does not start is kept. */
  predicate RejectsAs(env: Environment, r: nat, message: Message, s: State, p: Progress) {
    if !env.assistantAccepted(r) then
      p.end == Some(Failed(AssistantRejected)) && p.state.messages == s.messages && p.state.acks == s.acks
    else
      && p.end == Some(Failed(StepRejected))
      && p.state.messages == s.messages + [message] && p.state.acks == s.acks + [message]
  }

  /** A round with calls, which reaches the first m of them: none if its message is not accepted;
      otherwise the message is in memory, then the records of the calls before the one that
      failed, or of all, and then the guard has its word. */
  predicate RoundReaches(env: Environment, durable: bool, r: nat, message: Message, s: State, p: Progress, m: nat)
    requires message.Assistant?
  {
    && (forall i :: 0 <= i < m - 1 ==> CallEnd(env, durable, r, i).None?)
    && m <= |message.calls| && RunCalls(p.state.past) == RunCalls(s.past) + Unblocked(env, r, message.calls, 0, m)
    && if !Starts(env, durable, r) then m == 0 && RejectsAs(env, r, message, s, p)
       else
         && s.messages + [message] <= p.state.messages
         && var records := p.state.messages[|s.messages| + 1..];
            if p.end.Some? && OfTools(p.end.value) then
              && m == |records| + 1 && RecordsAll(env, durable, r, message.calls, 0, records)
              && p.end == CallEnd(env, durable, r, m - 1)
            else
              && m == |message.calls| <= |records| && GuardsAs(env, r, p.end)
              && (0 < m ==> CallEnd(env, durable, r, m - 1).None?)
              && RecordsAll(env, durable, r, message.calls, 0, records[..m])
  }

  lemma AppendGoes(env: Environment, durable: bool, r: nat, message: Message, s: State)
    ensures var p := Append(env, durable, r, message, s);
            if Starts(env, durable, r) then p.end.None? && p.state.messages == s.messages + [message]
            else RejectsAs(env, r, message, s, p)
  {
  }

  lemma GuardNeverOfTools(env: Environment, durable: bool, r: nat, s: State)
    ensures var end := Guarded(env, durable, r, s).end; end.Some? ==> !OfTools(end.value)
  {
  }

  lemma RecordsKept(env: Environment, durable: bool, r: nat, message: Message, s: State, tools: Progress, p: Progress,
                    m: nat)
    requires message.Assistant? && m == |message.calls| && tools.state.messages <= p.state.messages
    requires s.messages + [message] <= tools.state.messages && |tools.state.messages| == |s.messages| + 1 + m
    requires RecordsAll(env, durable, r, message.calls, 0, tools.state.messages[|s.messages| + 1..])
    ensures s.messages + [message] <= p.state.messages && m <= |p.state.messages[|s.messages| + 1..]|
    ensures RecordsAll(env, durable, r, message.calls, 0, p.state.messages[|s.messages| + 1..][..m])
  {
    assert p.state.messages[|s.messages| + 1..][..m] == tools.state.messages[|s.messages| + 1..];
  }

  /** From the state behind the assistant message, a call that ends the round. */
  lemma FailedToolsReach(env: Environment, durable: bool, r: nat, message: Message, s: State, head: State,
                         tools: Progress, m: nat)
    requires message.Assistant? && Starts(env, durable, r)
    requires head.messages == s.messages + [message] && RunCalls(head.past) == RunCalls(s.past)
    requires Reaches(env, durable, r, message.calls, 0, head, tools, m)
    requires tools.end.Some? && OfTools(tools.end.value)
    ensures RoundReaches(env, durable, r, message, s, tools, m)
  {
  }

  /** All calls recorded, and then the guard. */
  lemma GuardedToolsReach(env: Environment, durable: bool, r: nat, message: Message, s: State, head: State,
                          tools: Progress, p: Progress, m: nat)
    requires message.Assistant? && Starts(env, durable, r)
    requires head.messages == s.messages + [message] && RunCalls(head.past) == RunCalls(s.past)
    requires Reaches(env, durable, r, message.calls, 0, head, tools, m) && tools.end.None?
    requires tools.state.messages <= p.state.messages && RunsNothing(tools.state, p) && GuardsAs(env, r, p.end)
    requires p.end.Some? ==> !OfTools(p.end.value)
    ensures RoundReaches(env, durable, r, message, s, p, m)
  {
    RecordsKept(env, durable, r, message, s, tools, p, m);
  }

  lemma ToolRoundReaches(env: Environment, durable: bool, r: nat, message: Message, s: State) returns (m: nat)
    requires message.Assistant?
    ensures RoundReaches(env, durable, r, message, s, ToolRound(env, durable, r, message, s), m)
  {
    var head := Append(env, durable, r, message, s);
    AppendRunsNothing(env, durable, r, message, s);
    AppendGoes(env, durable, r, message, s);
    m := 0;
    if head.end.None? {
      m := InvokeAllReaches(env, durable, r, message.calls, 0, head.state);
      InvokeAllFailsOfTools(env, durable, r, message.calls, 0, head.state);
      var tools := InvokeAll(env, durable, r, message.calls, 0, head.state);
      if tools.end.None? {
        var p := Guarded(env, durable, r, tools.state);
        GuardedGuards(env, durable, r, tools.state);
        GuardNeverOfTools(env, durable, r, tools.state);
        GuardedToolsReach(env, durable, r, message, s, head.state, tools, p, m);
      } else {
        FailedToolsReach(env, durable, r, message, s, head.state, tools, m);
      }
    }
  }

  // ---------------------------------------------------------------- a round

  /** How the environment's answers end a round before any call, in their order. */
  predicate RoundOpens(env: Environment, r: nat, s: State, p: Progress) {
    && (!env.prepared(r) ==> p == Progress(s, Some(Failed(NotPrepared))))
    && (env.prepared(r) && env.reply(r).ProviderError? ==>
          p.end == Some(Failed(ProviderFailed)) && p.state.messages == s.messages)
    && (env.prepared(r) && env.reply(r).Answer? && !env.settled(r) ==>
          p.end == Some(Failed(NotSettled)) && p.state.messages == s.messages)
    && (env.prepared(r) && env.reply(r).Answer? && env.settled(r) && env.reply(r).calls == [] ==>
          p.end == Some(Completed(Assistant(env.reply(r).text, []))) && p.state.messages == s.messages)
  }

  predicate GetsToCalls(env: Environment, r: nat) {
    env.prepared(r) && env.reply(r).Answer? && env.settled(r) && env.reply(r).calls != []
  }

  /** Exactly how a round goes: it ends before any call for the first of the environment's answers
      that asks for it; otherwise it makes the one request and reaches the first m of its calls. */
  predicate RoundGoes(env: Environment, durable: bool, r: nat, s: State, p: Progress, m: nat) {
    && m <= |AssistantOf(env, r).calls| && (p.end.None? ==> m == |AssistantOf(env, r).calls|)
    && RoundOpens(env, r, s, p)
    && RunCalls(p.state.past) == RunCalls(s.past) + Unblocked(env, r, AssistantOf(env, r).calls, 0, m)
    && if GetsToCalls(env, r) then RoundReaches(env, durable, r, AssistantOf(env, r), Do(s, Requested), p, m)
       else m == 0 && p.end.Some?
  }

  lemma RoundExactly(env: Environment, durable: bool, r: nat, s: State) returns (m: nat)
    ensures RoundGoes(env, durable, r, s, Round(env, durable, r, s), m)
  {
    m := 0;
    RunCallsQuiet(s, Requested);
    if GetsToCalls(env, r) {
      m := ToolRoundReaches(env, durable, r, AssistantOf(env, r), Do(s, Requested));
    }
  }

  // ---------------------------------------------------------------- whole turns

  /** The state once the complete rounds from r on are done. */
  function AfterComplete(round: RoundStep, r: nat, limit: nat, s: State): State
    requires r <= limit
    decreases limit - r
  {
    if r == limit || round(r, s).end.Some? then s else AfterComplete(round, r + 1, limit, round(r, s).state)
  }

  /** The complete rounds, and then the budget or the round that ends the turn. */
  lemma {:induction false} CompleteThenLast(round: RoundStep, r: nat, limit: nat, s: State)
    requires r <= limit
    ensures var (stop, last) := (r + CompleteRounds(round, r, limit, s), AfterComplete(round, r, limit, s));
            && Rounds(round, r, limit, s)
               == (if stop == limit then Progress(last, Some(RoundBudgetReached(limit))) else round(stop, last))
            && (stop < limit ==> round(stop, last).end.Some?)
    decreases limit - r
  {
    if r < limit && round(r, s).end.None? {
      CompleteThenLast(round, r + 1, limit, round(r, s).state);
    }
  }

  /** A complete round runs what the guard lets through of all its calls. */
  ghost predicate RunsUnblocked(env: Environment, round: RoundStep) {
    forall i: nat, t: State :: round(i, t).end.None? ==> RanUnblocked(env, i, t, round(i, t))
  }

  predicate RanUnblocked(env: Environment, i: nat, t: State, p: Progress) {
    var calls := AssistantOf(env, i).calls;
    RunCalls(p.state.past) == RunCalls(t.past) + Unblocked(env, i, calls, 0, |calls|)
  }

  lemma {:induction false} CompleteRoundsRun(env: Environment, round: RoundStep, r: nat, limit: nat, s: State)
    requires r <= limit && RunsUnblocked(env, round)
    ensures RunCalls(AfterComplete(round, r, limit, s).past)
            == RunCalls(s.past) + UnblockedRounds(env, r, r + CompleteRounds(round, r, limit, s))
    decreases limit - r
  {
    if r < limit && round(r, s).end.None? {
      var t := round(r, s).state;
      assert RanUnblocked(env, r, s, round(r, s));
      CompleteRoundsRun(env, round, r + 1, limit, t);
      var stop := r + 1 + CompleteRounds(round, r + 1, limit, t);
      var calls := AssistantOf(env, r).calls;
      assert UnblockedRounds(env, r, stop) == Unblocked(env, r, calls, 0, |calls|) + UnblockedRounds(env, r + 1, stop);
    }
  }

  lemma RoundsRunUnblocked(env: Environment, durable: bool)
    ensures RunsUnblocked(env, RoundOf(env, durable))
  {
    forall i: nat, t: State | RoundOf(env, durable)(i, t).end.None?
      ensures RanUnblocked(env, i, t, RoundOf(env, durable)(i, t))
    {
      var m := RoundExactly(env, durable, i, t);
    }
  }

  /** What a turn runs.  Of the calls of every complete round exactly those that the guard does not
      answer, in order and once each; then, unless the budget ended it, its last round goes
      exactly as its answers say, reaching its first m calls and running of them what the guard
      lets through.  A turn that is halted or begins with recovery runs nothing. */
  lemma TurnRunsExactlyTheUnblocked(env: Environment, durable: bool, limit: nat, history: seq<Message>) returns (m: nat)
    ensures var s := State(history, history, []);
            var p := Turn(env, durable, limit, s);
            if limit == 0 || env.halted || env.recovering then RunCalls(p.state.past) == []
            else
              var stop := CompleteRounds(RoundOf(env, durable), 0, limit, s);
              var last := AfterComplete(RoundOf(env, durable), 0, limit, s);
              && RunCalls(last.past) == UnblockedRounds(env, 0, stop)
              && if stop == limit then p == Progress(last, Some(RoundBudgetReached(limit)))
                 else p.end.Some? && RoundGoes(env, durable, stop, last, p, m)
  {
    var s, round := State(history, history, []), RoundOf(env, durable);
    m := 0;
    if limit > 0 && !env.halted && !env.recovering {
      RoundsRunUnblocked(env, durable);
      CompleteRoundsRun(env, round, 0, limit, s);
      CompleteThenLast(round, 0, limit, s);
      var stop, last := CompleteRounds(round, 0, limit, s), AfterComplete(round, 0, limit, s);
      if stop < limit {
        m := RoundExactly(env, durable, stop, last);
      }
    } else {
      RecoverRunsNothing(env, durable, s);
    }
  }

  /** The messages that TurnAppendsRounds speaks of are these records. */
  lemma RoundMessagesRecord(env: Environment, durable: bool, r: nat, j: nat)
    requires j < |AssistantOf(env, r).calls|
    requires !durable ==>
               env.recorded(r, j, if env.blocked(r, j).Some? then env.blocked(r, j).value else env.output(r, j)).Some?
    ensures var (ms, calls) := (RoundMessages(env, durable)(r), AssistantOf(env, r).calls);
            |ms| == 1 + |calls| && ms[0] == AssistantOf(env, r) && Records(env, durable, r, j, calls[j], ms[1 + j])
  {
  }

  /** Recovery, by the environment's answers in their order: only a text without calls that is not
      blank ends the turn well. */
  predicate RecoversAs(env: Environment, durable: bool, s: State, p: Progress) {
    var reply := env.recovery.reply;
    var answered := reply.Answer? && reply.calls == [] && exists i :: 0 <= i < |reply.text| && IsVisible(reply.text[i]);
    if !env.recovery.prepared then p == Progress(s, Some(Failed(NotPrepared)))
    else if !env.recovery.settled then p.end == Some(Failed(NotSettled)) && p.state.messages == s.messages
    else if answered then p.end == Some(Recovered(Assistant(reply.text, []))) && p.state.messages == s.messages
    else if durable && !env.recovery.noticeAccepted then
      p.end == Some(Failed(NoticeRejected)) && p.state.messages == s.messages
    else
      && p.end == Some(Failed(RecoveryFailed))
      && p.state.messages == s.messages + [Assistant(env.recovery.notice, [])]
  }

  /** How a turn begins: without rounds it fails, a guard that already stopped fails it unless it
      asks for recovery, and recovery comes before any round. */
  lemma TurnOpens(env: Environment, durable: bool, limit: nat, s: State)
    ensures var p := Turn(env, durable, limit, s);
            && (limit == 0 ==> p == Progress(s, Some(Failed(NoRounds))))
            && (limit > 0 && env.halted && !env.recovering ==> p == Progress(s, Some(Failed(GuardStopped))))
            && (limit > 0 && env.recovering ==> RecoversAs(env, durable, s, p))
  {
    if env.recovery.reply.Answer? {
      BlankExactly(env.recovery.reply.text);
    }
  }

  /** After a round that asks for recovery it is the same. */
  lemma GuardRecovers(env: Environment, durable: bool, r: nat, s: State)
    requires env.recovers(r)
    ensures RecoversAs(env, durable, s, Guarded(env, durable, r, s))
  {
    if env.recovery.reply.Answer? {
      BlankExactly(env.recovery.reply.text);
    }
  }
}
