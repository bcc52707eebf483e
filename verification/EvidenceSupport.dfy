/** What support rests on, fact by fact: which command ran, at which revision, which artifact was
    verified, which failure a later run repaired.  Said of the lists a record holds, by place. */
module EvidenceSupport {
  import opened Common
  import opened ArtifactReader
  import opened CompletionEvidence
  import opened Text

  /** Check i is a passing run of that very command, of this work, at its current revision. */
  predicate RanAt(codec: Codec, e: Evidence, command: string, cwd: string, i: nat) {
    && i < |e.checks|
    && e.checks[i].commandDigest == codec.hash(codec.commandJson(command, cwd))
    && e.checks[i].generation == e.generation && e.checks[i].workRevision == e.workRevision
    && e.checks[i].outcome == Succeeded
  }

  /** Artifact i is that very one, of this work, and verified. */
  predicate PresentAt(e: Evidence, artifact: ArtifactRef, i: nat) {
    && i < |e.artifacts| && e.artifacts[i].record.reference == artifact
    && e.artifacts[i].generation == e.generation && e.artifacts[i].verified
  }

  ghost predicate Met(codec: Codec, e: Evidence, condition: Condition) {
    match condition
    case CommandSucceeded(command, cwd) => exists i: nat :: RanAt(codec, e, command, cwd, i)
    case ArtifactPresent(artifact) => exists i: nat :: PresentAt(e, artifact, i)
    case Declared(_, _) => false
  }

  /** Check j ran the command of the failed check i again, later, at the current revision, and
      passed with exit code zero. */
  predicate RunsAgain(e: Evidence, i: nat, j: nat) {
    && i < |e.checks| && j < |e.checks|
    && e.checks[i].outcome == FailedCheck && e.checks[j].outcome == Succeeded
    && e.checks[j].commandDigest == e.checks[i].commandDigest && e.checks[j].exitCode == Some(0)
    && e.checks[j].generation == e.generation
    && e.checks[i].workRevision < e.checks[j].workRevision && e.checks[j].workRevision == e.workRevision
  }

  /** Effect m is the invocation of a failed check i that was run again as j. */
  predicate Repairs(e: Evidence, m: nat, i: nat, j: nat) {
    && m < |e.effects| && RunsAgain(e, i, j)
    && e.effects[m].outcome == FailedEffect && e.checks[i].invocation == e.effects[m].invocation
  }

  /** Something that only a person can settle. */
  ghost predicate Doubtful(e: Evidence) {
    || e.omittedObservations
    || (exists m :: 0 <= m < |e.effects| && e.effects[m].outcome == Unknown)
    || (exists r :: 0 <= r < |e.childReports| && e.childReports[r].outcome == NeedsAttention)
    || !(e.verification.NotNeeded? || e.verification.Passed?)
  }

  /** The delivery, the reports, the effects, the checks and the artifacts are in order. */
  ghost predicate AllDone(e: Evidence) {
    && e.deliveredHash.Some? && e.deliveredBytes > 0
    && (forall r :: 0 <= r < |e.childReports| ==> e.childReports[r].outcome != Incomplete)
    && (forall m :: 0 <= m < |e.effects| ==> e.effects[m].outcome != Declined)
    && (forall m :: 0 <= m < |e.effects| && e.effects[m].outcome == FailedEffect ==>
          exists i: nat, j: nat :: Repairs(e, m, i, j))
    && (forall i :: 0 <= i < |e.checks| ==> e.checks[i].outcome == Succeeded || exists j: nat :: RunsAgain(e, i, j))
    && (forall i :: 0 <= i < |e.artifacts| ==> e.artifacts[i].verified && e.artifacts[i].generation == e.generation)
  }

  ghost predicate AllMet(codec: Codec, e: Evidence) {
    forall k :: 0 <= k < |e.contract.conditions| ==> Met(codec, e, e.contract.conditions[k])
  }

  // ---------------------------------------------------------------- the evaluator's tests, by place

  lemma MetIsSatisfied(codec: Codec, e: Evidence, condition: Condition)
    ensures Satisfies(codec, e, condition) <==> Met(codec, e, condition)
  {
    match condition
    case CommandSucceeded(command, cwd) =>
      if Satisfies(codec, e, condition) {
        var check :| check in e.checks && check.generation == e.generation
                     && check.commandDigest == CommandDigest(codec, command, cwd)
                     && check.workRevision == e.workRevision && check.outcome == Succeeded;
        var i: nat :| 0 <= i < |e.checks| && e.checks[i] == check;
        assert RanAt(codec, e, command, cwd, i);
      }
      if i: nat :| RanAt(codec, e, command, cwd, i) {
        assert e.checks[i] in e.checks;
      }
    case ArtifactPresent(artifact) =>
      if Satisfies(codec, e, condition) {
        var fact :| fact in e.artifacts && fact.generation == e.generation
                    && fact.record.reference == artifact && fact.verified;
        var i: nat :| 0 <= i < |e.artifacts| && e.artifacts[i] == fact;
        assert PresentAt(e, artifact, i);
      }
      if i: nat :| PresentAt(e, artifact, i) {
        assert e.artifacts[i] in e.artifacts;
      }
    case Declared(_, _) =>
  }

  lemma SupersededRunsAgain(e: Evidence, i: nat)
    requires i < |e.checks|
    ensures CheckSuperseded(e, e.checks[i]) <==> exists j: nat :: RunsAgain(e, i, j)
  {
    if CheckSuperseded(e, e.checks[i]) {
      var later :| later in e.checks && Supersedes(e, e.checks[i], later);
      var j: nat :| 0 <= j < |e.checks| && e.checks[j] == later;
      assert RunsAgain(e, i, j);
    }
    if j: nat :| RunsAgain(e, i, j) {
      assert e.checks[j] in e.checks && Supersedes(e, e.checks[i], e.checks[j]);
    }
  }

  lemma RepairedIsRepaired(e: Evidence, m: nat)
    requires m < |e.effects| && e.effects[m].outcome == FailedEffect
    ensures EffectRepaired(e, e.effects[m]) <==> exists i: nat, j: nat :: Repairs(e, m, i, j)
  {
    if EffectRepaired(e, e.effects[m]) {
      var check :| check in e.checks && check.invocation == e.effects[m].invocation
                   && check.outcome == FailedCheck && CheckSuperseded(e, check);
      var i: nat :| 0 <= i < |e.checks| && e.checks[i] == check;
      SupersededRunsAgain(e, i);
      var j: nat :| RunsAgain(e, i, j);
      assert Repairs(e, m, i, j);
    }
    if i: nat, j: nat :| Repairs(e, m, i, j) {
      SupersededRunsAgain(e, i);
      assert e.checks[i] in e.checks;
    }
  }

  lemma DoubtfulIsUncertain(e: Evidence)
    ensures Uncertain(e) <==> Doubtful(e)
  {
    NotUncertain(e);
    if !Uncertain(e) {
      forall m | 0 <= m < |e.effects| ensures e.effects[m].outcome != Unknown {
        assert e.effects[m] in e.effects;
      }
      forall r | 0 <= r < |e.childReports| ensures e.childReports[r].outcome != NeedsAttention {
        assert e.childReports[r] in e.childReports;
      }
    }
  }

  lemma FinishedIsDone(e: Evidence)
    requires !Unfinished(e)
    ensures AllDone(e)
  {
    NotUnfinished(e);
    forall r | 0 <= r < |e.childReports| ensures e.childReports[r].outcome != Incomplete {
      assert e.childReports[r] in e.childReports;
    }
    forall m | 0 <= m < |e.effects|
      ensures e.effects[m].outcome != Declined
      ensures e.effects[m].outcome == FailedEffect ==> exists i: nat, j: nat :: Repairs(e, m, i, j)
    {
      assert e.effects[m] in e.effects;
      if e.effects[m].outcome == FailedEffect {
        RepairedIsRepaired(e, m);
      }
    }
    forall i | 0 <= i < |e.checks| ensures e.checks[i].outcome == Succeeded || exists j: nat :: RunsAgain(e, i, j) {
      assert e.checks[i] in e.checks;
      SupersededRunsAgain(e, i);
    }
    forall i | 0 <= i < |e.artifacts| ensures e.artifacts[i].verified && e.artifacts[i].generation == e.generation {
      assert e.artifacts[i] in e.artifacts;
    }
  }

  lemma DoneIsFinished(e: Evidence)
    requires AllDone(e)
    ensures !Unfinished(e)
  {
    forall effect | effect in e.effects
      ensures effect.outcome != Declined && (effect.outcome == FailedEffect ==> EffectRepaired(e, effect))
    {
      var m: nat :| 0 <= m < |e.effects| && e.effects[m] == effect;
      if effect.outcome == FailedEffect {
        RepairedIsRepaired(e, m);
      }
    }
    forall check | check in e.checks ensures check.outcome == Succeeded || CheckSuperseded(e, check) {
      var i: nat :| 0 <= i < |e.checks| && e.checks[i] == check;
      SupersededRunsAgain(e, i);
    }
    NotUnfinished(e);
  }

  lemma AllMetMeans(codec: Codec, e: Evidence)
    ensures AllMet(codec, e) <==> forall c :: c in e.contract.conditions ==> Satisfies(codec, e, c)
  {
    var cs := e.contract.conditions;
    forall k | 0 <= k < |cs| ensures Satisfies(codec, e, cs[k]) <==> Met(codec, e, cs[k]) {
      MetIsSatisfied(codec, e, cs[k]);
    }
    if forall c :: c in cs ==> Satisfies(codec, e, c) {
      forall k | 0 <= k < |cs| ensures Met(codec, e, cs[k]) {
        assert cs[k] in cs;
      }
    }
  }

  // ---------------------------------------------------------------- the outcome

  /** The outcome, exactly.  Work that did not claim completion or ran over is incomplete; what is
      in doubt needs attention; what is not done is incomplete; an unmet condition needs
      attention; and only then is delivery, or with conditions the contract, vouched for. */
  lemma OutcomeExactly(codec: Codec, e: Evidence)
    ensures var o, fit := OutcomeOf(codec, e), e.claim == Completed && !e.budget.exceeded;
            && (o == Incomplete <==> !fit || (!Doubtful(e) && !AllDone(e)))
            && (o == NeedsAttention <==> fit && (Doubtful(e) || (AllDone(e) && !AllMet(codec, e))))
            && (o == DeliveryVerified <==>
                  fit && !Doubtful(e) && AllDone(e) && |e.contract.conditions| == 0)
            && (o == ConditionsVerified <==>
                  fit && !Doubtful(e) && AllDone(e) && |e.contract.conditions| > 0 && AllMet(codec, e))
  {
    DoubtfulIsUncertain(e);
    if Unfinished(e) {
      if AllDone(e) {
        DoneIsFinished(e);
      }
    } else {
      FinishedIsDone(e);
    }
    AllMetMeans(codec, e);
  }

  /** What a supported record holds: for each command of its contract a passing run of that very
      command at the current revision; for each artifact that very one, verified; behind each
      failed check and effect a later passing run of the same command. */
  lemma SupportRestsOnFacts(codec: Codec, chain: seq<Evidence>)
    requires Accepted(codec, chain) && chain != [] && Supported(chain[|chain| - 1])
    ensures var e := chain[|chain| - 1];
            && e.claim == Completed && !e.budget.exceeded && !Doubtful(e) && AllDone(e) && AllMet(codec, e)
            && (forall r :: 0 <= r < |e.childReports| ==>
                  e.childReports[r].outcome == DeliveryVerified || e.childReports[r].outcome == ConditionsVerified)
  {
    ChainsAreFiniteAndFrozen(codec, chain);
    var e := chain[|chain| - 1];
    assert ValidOutcome(codec, e);
    OutcomeExactly(codec, e);
  }

  // ---------------------------------------------------------------- what is admitted at all

  /** A command with a character that is no white space and a directory, both of at most 4096
      bytes and without NUL; a declared id of 1 to 128 bytes without C0, DEL or C1 characters. */
  predicate WellFormed(c: Condition) {
    match c
    case CommandSucceeded(command, cwd) =>
      && 0 < |cwd| && Utf8Length(command) <= 4096 && Utf8Length(cwd) <= 4096
      && (exists i :: 0 <= i < |command| && IsVisible(command[i]))
      && (forall i :: 0 <= i < |command| ==> command[i] != '\0') && (forall i :: 0 <= i < |cwd| ==> cwd[i] != '\0')
    case ArtifactPresent(_) => true
    case Declared(id, _) =>
      && 0 < |id| && Utf8Length(id) <= 128
      && forall i :: 0 <= i < |id| ==> 0x20 <= id[i] as int && !(0x7F <= id[i] as int <= 0x9F)
  }

  predicate WellFormedContract(codec: Codec, contract: Contract) {
    && |contract.conditions| <= 64 && |codec.contractJson(contract)| <= 16_384
    && forall k :: 0 <= k < |contract.conditions| ==> WellFormed(contract.conditions[k])
  }

  lemma WellFormedIsValid(c: Condition)
    ensures ConditionValid(c) <==> WellFormed(c)
  {
    match c
    case CommandSucceeded(command, _) => BlankExactly(command);
    case ArtifactPresent(_) =>
    case Declared(_, _) =>
  }

  lemma ContractsAgree(codec: Codec, contract: Contract)
    ensures ContractValid(codec, contract) <==> WellFormedContract(codec, contract)
  {
    forall k | 0 <= k < |contract.conditions|
      ensures ConditionValid(contract.conditions[k]) <==> WellFormed(contract.conditions[k])
    {
      WellFormedIsValid(contract.conditions[k]);
    }
    assert (forall c :: c in contract.conditions ==> ConditionValid(c))
      <==> forall k :: 0 <= k < |contract.conditions| ==> ConditionValid(contract.conditions[k]);
  }

  /** What may be declared: exactly the well-formed contracts, as a first record that
      has observed nothing, delivered nothing and owes nothing. */
  lemma DeclarationExactly(codec: Codec, generation: Name, kind: WorkKind, owner: Owner, claim: Claim,
                           contract: Contract)
    ensures var declared := New(codec, generation, kind, owner, claim, contract);
            && (declared.Some? <==> WellFormedContract(codec, contract))
            && (declared.Some? ==>
                  var e := declared.value;
                  && e.version == 1 && e.revision == 1 && e.generation == generation && e.kind == kind
                  && e.owner == owner && e.claim == claim && e.contract == contract
                  && e.contractDigest == codec.hash(codec.contractJson(contract))
                  && e.deliveredHash == None && e.deliveredBytes == 0 && e.workRevision == 0
                  && e.childReports == [] && e.checks == [] && e.artifacts == [] && e.effects == []
                  && !e.omittedObservations && !e.budget.exhausted && !e.budget.exceeded
                  && e.budget.verificationBytesReserved == 0 && e.budget.requests == None && e.budget.tokens == None
                  && e.budget.actions == None && e.budget.millis == None && e.budget.cost == None
                  && e.verification == NotNeeded && e.outcome == Incomplete)
  {
    ContractsAgree(codec, contract);
  }

  /** Each fact is of the work itself and of no later revision than it; none is there twice. */
  predicate OwnDistinctFacts(e: Evidence) {
    && (forall i :: 0 <= i < |e.checks| ==>
          e.checks[i].generation == e.generation && e.checks[i].workRevision <= e.workRevision)
    && (forall i :: 0 <= i < |e.effects| ==> e.effects[i].generation == e.generation)
    && (forall i :: 0 <= i < |e.artifacts| ==> e.artifacts[i].generation == e.generation)
    && (forall i :: 0 <= i < |e.childReports| ==> e.childReports[i].generation != e.generation)
    && (forall i, j :: 0 <= i < j < |e.checks| ==> e.checks[i].invocation != e.checks[j].invocation)
    && (forall i, j :: 0 <= i < j < |e.effects| ==> e.effects[i].invocation != e.effects[j].invocation)
    && (forall i, j :: 0 <= i < j < |e.childReports| ==>
          e.childReports[i].generation != e.childReports[j].generation)
  }

  predicate Admissible(codec: Codec, e: Evidence) {
    && e.version == 1 && 1 <= e.revision <= 3 && WellFormedContract(codec, e.contract)
    && e.contractDigest == codec.hash(codec.contractJson(e.contract))
    && |codec.evidenceJson(e)| <= 65_536 && e.budget.verificationBytesReserved <= 16_777_216
    && |e.checks| <= 64 && |e.artifacts| <= 64 && |e.effects| <= 64 && |e.childReports| <= 64
    && OwnDistinctFacts(e)
  }

  lemma NamesAgree(e: Evidence)
    ensures Distinct(CheckInvocations(e.checks)) <==>
              forall i, j :: 0 <= i < j < |e.checks| ==> e.checks[i].invocation != e.checks[j].invocation
    ensures Distinct(EffectInvocations(e.effects)) <==>
              forall i, j :: 0 <= i < j < |e.effects| ==> e.effects[i].invocation != e.effects[j].invocation
    ensures Distinct(ChildGenerations(e.childReports)) <==>
              forall i, j :: 0 <= i < j < |e.childReports| ==>
                e.childReports[i].generation != e.childReports[j].generation
  {
    var checks, effects, reports := CheckInvocations(e.checks), EffectInvocations(e.effects),
                                    ChildGenerations(e.childReports);
    assert forall i :: 0 <= i < |checks| ==> checks[i] == e.checks[i].invocation;
    assert forall i :: 0 <= i < |effects| ==> effects[i] == e.effects[i].invocation;
    assert forall i :: 0 <= i < |reports| ==> reports[i] == e.childReports[i].generation;
  }

  /** The records `validate` admits, exactly. */
  lemma ValidExactly(codec: Codec, e: Evidence)
    ensures Valid(codec, e) <==> Admissible(codec, e)
  {
    ContractsAgree(codec, e.contract);
    NamesAgree(e);
  }

  /** No verdict yet. */
  predicate Unsettled(e: Evidence) {
    && (e.verification == NotNeeded || e.verification == Unavailable || e.verification == Reserved
        || e.verification == Cancelled)
    && forall i :: 0 <= i < |e.artifacts| ==> !e.artifacts[i].verified
  }

  predicate Settles(p: Evidence, next: Evidence) {
    && (next.verification == Passed || next.verification == Failed || next.verification == Cancelled)
    && |next.artifacts| == |p.artifacts|
    && (forall i :: 0 <= i < |p.artifacts| ==>
          && !p.artifacts[i].verified && next.artifacts[i].record == p.artifacts[i].record
          && next.artifacts[i].generation == p.artifacts[i].generation)
    && next.childReports == p.childReports && next.version == p.version && next.claim == p.claim
    && next.contractDigest == p.contractDigest && next.deliveredHash == p.deliveredHash
    && next.deliveredBytes == p.deliveredBytes && next.workRevision == p.workRevision && next.checks == p.checks
    && next.effects == p.effects && next.omittedObservations == p.omittedObservations && next.budget == p.budget
  }

  lemma SettlesAgrees(p: Evidence, next: Evidence)
    ensures next.generation == p.generation && next.contract == p.contract && next.kind == p.kind
            && next.owner == p.owner && p.revision == 2 && next.revision == 3 && p.verification == Reserved ==>
              (ValidSuccessor(p, next) <==> Settles(p, next))
  {
    var unverified := Unverified(next.artifacts);
    assert |unverified| == |next.artifacts|;
    assert forall i :: 0 <= i < |unverified| ==> unverified[i] == next.artifacts[i].(verified := false);
    if Settles(p, next) {
      assert unverified == p.artifacts;
    }
  }

  /** A durable history is continued, exactly: by an admissible record whose outcome is what its
      evidence evaluates to; first by a declaration that is interrupted and empty; second by one
      of the same work, with nothing verified yet; third, only after a reservation, by the second
      with a verdict, which marks artifacts and changes nothing else but the outcome. */
  lemma TransitionExactly(codec: Codec, previous: Option<Evidence>, next: Evidence)
    ensures ValidTransition(codec, previous, next) <==>
              && Admissible(codec, next) && next.outcome == OutcomeOf(codec, next)
              && match previous
                 case None =>
                   && next.revision == 1 && next.claim == Interrupted && next.deliveredHash == None
                   && |next.checks| == |next.effects| == |next.artifacts| == |next.childReports| == 0
                   && next.verification == NotNeeded
                 case Some(p) =>
                   && next.generation == p.generation && next.contract == p.contract && next.kind == p.kind
                   && next.owner == p.owner
                   && ((p.revision == 1 && next.revision == 2 && Unsettled(next))
                       || (p.revision == 2 && next.revision == 3 && p.verification == Reserved && Settles(p, next)))
  {
    ValidExactly(codec, next);
    if previous.Some? {
      SettlesAgrees(previous.value, next);
    }
  }

  /** The records of an accepted history are admissible, are numbered by their places and keep to
      the contract that was declared. */
  lemma AcceptedRecords(codec: Codec, chain: seq<Evidence>, n: nat)
    requires Accepted(codec, chain) && n < |chain|
    ensures Admissible(codec, chain[n]) && chain[n].revision == n + 1 && chain[n].contract == chain[0].contract
  {
    ChainsAreFiniteAndFrozen(codec, chain);
    assert Placed(chain, n) && ValidOutcome(codec, chain[n]);
    ValidExactly(codec, chain[n]);
  }

  // ---------------------------------------------------------------- reservation and verdict

  /** Considering a valid second record, exactly: without artifacts nothing is asked; a cancelled
      one is cancelled, one that may not or cannot be paid for is unavailable, and otherwise the
      bytes of all artifacts are reserved.  Nothing else is touched but the outcome. */
  lemma ReservationExactly(codec: Codec, e: Evidence, authorized: bool, cancelled: bool)
    ensures var r := Reservation(codec, e, authorized, cancelled);
            && (r.Some? <==> Valid(codec, e) && e.revision == 2 && e.verification == NotNeeded)
            && (r.Some? ==>
                  var affordable := authorized && !e.budget.exhausted && TotalBytes(e.artifacts) <= 16_777_216;
                  var bytes := r.value.budget.verificationBytesReserved;
                  && r.value.verification == (if |e.artifacts| == 0 then NotNeeded else if cancelled then Cancelled
                                              else if affordable then Reserved else Unavailable)
                  && bytes == (if |e.artifacts| > 0 && !cancelled && affordable then TotalBytes(e.artifacts)
                               else e.budget.verificationBytesReserved)
                  && r.value == e.(verification := r.value.verification, outcome := r.value.outcome,
                                   budget := e.budget.(verificationBytesReserved := bytes))
                  && r.value.outcome == OutcomeOf(codec, r.value))
  {
    CheckedTotalIsTotal(e.artifacts);
    OutcomeIgnoresItself(codec, e);
    OutcomeIgnoresItself(codec, e.(verification := Cancelled));
    OutcomeIgnoresItself(codec, e.(verification := Unavailable));
    OutcomeIgnoresItself(codec, e.(budget := e.budget.(verificationBytesReserved := TotalBytes(e.artifacts)),
                                   verification := Reserved));
  }

  lemma OutcomeIgnoresItself(codec: Codec, e: Evidence)
    ensures OutcomeOf(codec, Evaluated(codec, e)) == Evaluated(codec, e).outcome
  {
    SameOutcome(codec, e, Evaluated(codec, e));
  }

  /** The verdict, exactly: each artifact that was answered is verified if and only if its answer
      succeeded; the pass is cancelled, passed if every answer did, or failed. */
  lemma VerdictExactly(codec: Codec, e: Evidence, answers: seq<Answer>, cancelled: bool)
    ensures var v := Verdict(codec, e, answers, cancelled);
            && |v.artifacts| == |e.artifacts|
            && (forall i :: 0 <= i < |e.artifacts| ==>
                  && v.artifacts[i].record == e.artifacts[i].record
                  && v.artifacts[i].generation == e.artifacts[i].generation
                  && (v.artifacts[i].verified <==>
                        if i < |answers| then answers[i].Ok? else e.artifacts[i].verified))
            && (v.verification == Cancelled <==> cancelled)
            && (v.verification == Passed <==> !cancelled && forall i :: 0 <= i < |answers| ==> answers[i].Ok?)
            && (v.verification == Failed <==> !cancelled && exists i :: 0 <= i < |answers| && answers[i].Err?)
            && v.revision == 3 && v.outcome == OutcomeOf(codec, v)
            && v == e.(artifacts := v.artifacts, revision := 3, verification := v.verification, outcome := v.outcome)
  {
    OutcomeIgnoresItself(codec, e.(artifacts := Settled(e.artifacts, answers), revision := 3,
                                   verification := Verdict(codec, e, answers, cancelled).verification));
  }
}
