/** Completion evidence: the revisioned record of what finite work observed, its
    evaluator, and the transitions a durable history admits.

    The hash and the JSON renderings are arbitrary functions: nothing here needs them to be
    injective.  Operations, invocations, artifacts and owners are names. */
module CompletionEvidence {
  import opened Common
  import opened ArtifactReader

  type Name = nat

  const MAX_EVIDENCE_ITEMS: nat := 64
  const MAX_EVIDENCE_BYTES: nat := 64 * 1024
  const MAX_CONTRACT_BYTES: nat := 16 * 1024
  const MAX_VERIFY_BYTES: nat := 16 * 1024 * 1024

  datatype ArtifactRef = ArtifactRef(id: Name, contentHash: Hash)
  datatype ArtifactRecord = ArtifactRecord(reference: ArtifactRef, mediaType: string, byteLen: U64, owner: Name)

  datatype Condition =
    | CommandSucceeded(command: string, cwd: string)
    | ArtifactPresent(artifact: ArtifactRef)
    | Declared(id: string, revision: Hash)

  datatype Contract = Contract(conditions: seq<Condition>)

  datatype WorkKind = Root | Child | Scheduled | Retained | Context
  datatype Owner = Native | Managed
  datatype Claim = Completed | FailedClaim | CancelledClaim | Interrupted
  datatype Outcome = DeliveryVerified | ConditionsVerified | Incomplete | NeedsAttention
  datatype CheckOutcome = Succeeded | FailedCheck | UnavailableCheck
  datatype EffectOutcome = Acknowledged | FailedEffect | Declined | Unknown
  datatype Verification = NotNeeded | Unavailable | Reserved | Passed | Failed | Cancelled

  datatype Check = Check(
    invocation: Name, generation: Name, commandDigest: Hash, workRevision: nat, outcome: CheckOutcome,
    exitCode: Option<int>)

  datatype Effect = Effect(invocation: Name, generation: Name, outcome: EffectOutcome, replaySafe: bool)
  datatype Artifact = Artifact(generation: Name, record: ArtifactRecord, verified: bool)
  datatype ChildReport = ChildReport(generation: Name, receiptDigest: Option<Hash>, outcome: Outcome)

  datatype Budget = Budget(
    requests: Option<nat>, tokens: Option<nat>, actions: Option<nat>, millis: Option<nat>, cost: Option<nat>,
    exhausted: bool, exceeded: bool, verificationBytesReserved: nat)

  datatype Evidence = Evidence(
    childReports: seq<ChildReport>, version: nat, generation: Name, revision: nat, kind: WorkKind, owner: Owner,
    claim: Claim, contract: Contract, contractDigest: Hash, deliveredHash: Option<Hash>, deliveredBytes: nat,
    workRevision: nat, checks: seq<Check>, artifacts: seq<Artifact>, effects: seq<Effect>,
    omittedObservations: bool, budget: Budget, verification: Verification, outcome: Outcome)

  /** The content hash and the JSON renderings. */
  datatype Codec = Codec(
    hash: Bytes -> Hash, contractJson: Contract -> Bytes, commandJson: (string, string) -> Bytes,
    evidenceJson: Evidence -> Bytes)

  // ---------------------------------------------------------------- contracts

  predicate IsControl(c: char) {
    (c as int) < 0x20 || 0x7F <= (c as int) < 0xA0
  }

  predicate ConditionValid(c: Condition) {
    match c
    case CommandSucceeded(command, cwd) =>
      && !Blank(command)
      && Utf8Length(command) <= 4096 && '\0' !in command
      && cwd != "" && Utf8Length(cwd) <= 4096 && '\0' !in cwd
    case Declared(id, _) =>
      id != "" && Utf8Length(id) <= 128 && forall i :: 0 <= i < |id| ==> !IsControl(id[i])
    case ArtifactPresent(_) => true
  }

  predicate ContractValid(codec: Codec, contract: Contract) {
    && |contract.conditions| <= MAX_EVIDENCE_ITEMS
    && (forall c :: c in contract.conditions ==> ConditionValid(c))
    && |codec.contractJson(contract)| <= MAX_CONTRACT_BYTES
  }

  function ContractDigest(codec: Codec, contract: Contract): Hash {
    codec.hash(codec.contractJson(contract))
  }

  function CommandDigest(codec: Codec, command: string, cwd: string): Hash {
    codec.hash(codec.commandJson(command, cwd))
  }

  // ---------------------------------------------------------------- evaluation

  /** `new`. */
  function New(codec: Codec, generation: Name, kind: WorkKind, owner: Owner, claim: Claim, contract: Contract)
    : Option<Evidence>
  {
    if !ContractValid(codec, contract) then None
    else Some(Evidence([], 1, generation, 1, kind, owner, claim, contract, ContractDigest(codec, contract), None, 0, 0,
                       [], [], [], false, Budget(None, None, None, None, None, false, false, 0), NotNeeded, Incomplete))
  }

  predicate CheckSuperseded(e: Evidence, check: Check) {
    && check.outcome == FailedCheck
    && exists later :: later in e.checks && Supersedes(e, check, later)
  }

  predicate Supersedes(e: Evidence, check: Check, later: Check) {
    && later.generation == e.generation && later.commandDigest == check.commandDigest
    && check.workRevision < later.workRevision == e.workRevision
    && later.outcome == Succeeded && later.exitCode == Some(0)
  }

  predicate Satisfies(codec: Codec, e: Evidence, condition: Condition) {
    match condition
    case CommandSucceeded(command, cwd) =>
      exists check :: check in e.checks && check.generation == e.generation
        && check.commandDigest == CommandDigest(codec, command, cwd)
        && check.workRevision == e.workRevision && check.outcome == Succeeded
    case ArtifactPresent(artifact) =>
      exists fact :: fact in e.artifacts && fact.generation == e.generation
        && fact.record.reference == artifact && fact.verified
    case Declared(_, _) => false
  }

  /** The failed effect is the failed run of a check that a later run supersedes. */
  predicate EffectRepaired(e: Evidence, effect: Effect) {
    exists check :: check in e.checks && check.invocation == effect.invocation
      && check.outcome == FailedCheck && CheckSuperseded(e, check)
  }

  predicate Uncertain(e: Evidence) {
    || e.omittedObservations
    || (exists effect :: effect in e.effects && effect.outcome == Unknown)
    || (exists child :: child in e.childReports && child.outcome == NeedsAttention)
    || e.verification.Reserved? || e.verification.Unavailable? || e.verification.Failed? || e.verification.Cancelled?
  }

  predicate Unfinished(e: Evidence) {
    || e.deliveredHash.None? || e.deliveredBytes == 0
    || (exists child :: child in e.childReports && child.outcome == Incomplete)
    || (exists effect :: effect in e.effects
          && (effect.outcome == Declined || (effect.outcome == FailedEffect && !EffectRepaired(e, effect))))
    || (exists check :: check in e.checks && check.outcome != Succeeded && !CheckSuperseded(e, check))
    || (exists fact :: fact in e.artifacts && (!fact.verified || fact.generation != e.generation))
  }

  /** What `evaluate` assigns to `outcome`. */
  function OutcomeOf(codec: Codec, e: Evidence): Outcome {
    if e.claim != Completed || e.budget.exceeded then Incomplete
    else if Uncertain(e) then NeedsAttention
    else if Unfinished(e) then Incomplete
    else if exists condition :: condition in e.contract.conditions && !Satisfies(codec, e, condition) then
      NeedsAttention
    else if e.contract.conditions == [] then DeliveryVerified
    else ConditionsVerified
  }

  function Evaluated(codec: Codec, e: Evidence): Evidence {
    e.(outcome := OutcomeOf(codec, e))
  }

  predicate IsSupport(outcome: Outcome) {
    outcome == DeliveryVerified || outcome == ConditionsVerified
  }

  predicate Supported(e: Evidence) {
    IsSupport(e.outcome)
  }

  // ---------------------------------------------------------------- validation

  predicate Distinct(names: seq<Name>) {
    forall i, j :: 0 <= i < j < |names| ==> names[i] != names[j]
  }

  function CheckInvocations(checks: seq<Check>): seq<Name> {
    seq(|checks|, i requires 0 <= i < |checks| => checks[i].invocation)
  }

  function EffectInvocations(effects: seq<Effect>): seq<Name> {
    seq(|effects|, i requires 0 <= i < |effects| => effects[i].invocation)
  }

  function ChildGenerations(reports: seq<ChildReport>): seq<Name> {
    seq(|reports|, i requires 0 <= i < |reports| => reports[i].generation)
  }

  predicate OwnFacts(e: Evidence) {
    && (forall c :: c in e.checks ==> c.generation == e.generation && c.workRevision <= e.workRevision)
    && (forall f :: f in e.effects ==> f.generation == e.generation)
    && (forall f :: f in e.artifacts ==> f.generation == e.generation)
  }

  /** `validate` succeeds. */
  predicate Valid(codec: Codec, e: Evidence) {
    && ContractValid(codec, e.contract)
    && e.version == 1 && 0 < e.revision <= 3
    && ContractDigest(codec, e.contract) == e.contractDigest
    && |e.checks| <= MAX_EVIDENCE_ITEMS && |e.artifacts| <= MAX_EVIDENCE_ITEMS
    && |e.effects| <= MAX_EVIDENCE_ITEMS && |e.childReports| <= MAX_EVIDENCE_ITEMS
    && OwnFacts(e)
    && Distinct(CheckInvocations(e.checks)) && Distinct(EffectInvocations(e.effects))
    && e.budget.verificationBytesReserved <= MAX_VERIFY_BYTES
    && (forall c :: c in e.childReports ==> c.generation != e.generation)
    && Distinct(ChildGenerations(e.childReports))
    && |codec.evidenceJson(e)| <= MAX_EVIDENCE_BYTES
  }

  /** `validate_outcome` succeeds. */
  predicate ValidOutcome(codec: Codec, e: Evidence) {
    Valid(codec, e) && OutcomeOf(codec, e) == e.outcome
  }

  function Unverified(artifacts: seq<Artifact>): seq<Artifact> {
    seq(|artifacts|, i requires 0 <= i < |artifacts| => artifacts[i].(verified := false))
  }

  predicate ValidFirst(next: Evidence) {
    && next.revision == 1 && next.claim == Interrupted && next.deliveredHash.None?
    && next.checks == [] && next.effects == [] && next.artifacts == [] && next.childReports == []
    && next.verification == NotNeeded
  }

  predicate ValidSuccessor(previous: Evidence, next: Evidence) {
    && previous.generation == next.generation && previous.contract == next.contract
    && previous.kind == next.kind && previous.owner == next.owner
    && next.revision == previous.revision + 1
    && if previous.revision == 1 then
         && next.revision == 2 && next.verification != Passed && next.verification != Failed
         && forall fact :: fact in next.artifacts ==> !fact.verified
       else
         && previous.revision == 2 && previous.verification == Reserved
         && next.(revision := previous.revision, verification := previous.verification,
                  outcome := previous.outcome, artifacts := Unverified(next.artifacts)) == previous
         && (next.verification.Passed? || next.verification.Failed? || next.verification.Cancelled?)
  }

  /** `valid_transition`. */
  predicate ValidTransition(codec: Codec, previous: Option<Evidence>, next: Evidence) {
    && ValidOutcome(codec, next)
    && match previous
       case None => ValidFirst(next)
       case Some(p) => ValidSuccessor(p, next)
  }

  // ---------------------------------------------------------------- the record in place

  function CheckedTotal(artifacts: seq<Artifact>): Option<nat> {
    if artifacts == [] then Some(0)
    else match CheckedTotal(artifacts[..|artifacts| - 1])
      case None => None
      case Some(total) =>
        var sum := total + artifacts[|artifacts| - 1].record.byteLen;
        if sum <= U64_MAX then Some(sum) else None
  }

  /** What `reserve_verifier` makes of a record; None is its error. */
  function Reservation(codec: Codec, e: Evidence, authorized: bool, cancelled: bool): Option<Evidence> {
    if !(Valid(codec, e) && e.revision == 2 && e.verification == NotNeeded) then None
    else if e.artifacts == [] then Some(Evaluated(codec, e))
    else
      var bytes := CheckedTotal(e.artifacts);
      if cancelled then Some(Evaluated(codec, e.(verification := Cancelled)))
      else if !authorized || e.budget.exhausted || bytes.None? || bytes.value > MAX_VERIFY_BYTES then
        Some(Evaluated(codec, e.(verification := Unavailable)))
      else
        Some(Evaluated(codec,
            e.(budget := e.budget.(verificationBytesReserved := bytes.value), verification := Reserved)))
  }

  /** What `delivered` makes of a record. */
  function WithDelivery(codec: Codec, e: Evidence, bytes: Bytes): Evidence {
    e.(deliveredHash := Some(codec.hash(bytes)), deliveredBytes := |bytes|)
  }

  class CompletionRecord {
    var record: Evidence

    constructor (record: Evidence)
      ensures this.record == record
    {
      this.record := record;
    }

    method Delivered(codec: Codec, bytes: Bytes)
      modifies this
      ensures record == WithDelivery(codec, old(record), bytes)
    {
      record := record.(deliveredHash := Some(codec.hash(bytes)));
      record := record.(deliveredBytes := |bytes|);
    }

    method Evaluate(codec: Codec)
      modifies this
      ensures record == Evaluated(codec, old(record))
    {
      record := record.(outcome := OutcomeOf(codec, record));
    }

    /** None: already considered, or invalid; else whether a pass is reserved. */
    method ReserveVerifier(codec: Codec, authorized: bool, cancelled: bool) returns (reserved: Option<bool>)
      modifies this
      ensures reserved.None? <==> Reservation(codec, old(record), authorized, cancelled).None?
      ensures reserved.None? ==> record == old(record)
      ensures reserved.Some? ==> Some(record) == Reservation(codec, old(record), authorized, cancelled)
      ensures reserved.Some? ==> (reserved.value <==> record.verification == Reserved)
    {
      if !(Valid(codec, record) && record.revision == 2 && record.verification == NotNeeded) {
        return None;
      }
      if record.artifacts == [] {
        Evaluate(codec);
        return Some(false);
      }
      var bytes := CheckedTotal(record.artifacts);
      if cancelled {
        record := record.(verification := Cancelled);
      } else if !authorized || record.budget.exhausted || bytes.None? || bytes.value > MAX_VERIFY_BYTES {
        record := record.(verification := Unavailable);
      } else {
        record := record.(budget := record.budget.(verificationBytesReserved := bytes.value));
        record := record.(verification := Reserved);
      }
      Evaluate(codec);
      reserved := Some(record.verification == Reserved);
    }
  }

  type Answer = Result<Range, ReadError>

  /** An answer the store can give about an artifact whose file is `file`. */
  ghost predicate Answered(codec: Codec, record: ArtifactRecord, file: File, limits: Limits, answer: Answer) {
    || answer == RangeOf(codec.hash, file, limits, record.byteLen, record.reference.contentHash, 0, 0, MAX_VERIFY_BYTES)
    || (answer == Err(Io) && Faulty(file))
    || (answer.Err? && answer.error.TooLarge? && |file.content| > MAX_VERIFY_BYTES)
  }

  /** The artifacts once the first |answers| of them are answered. */
  function Settled(artifacts: seq<Artifact>, answers: seq<Answer>): seq<Artifact> {
    seq(|artifacts|, i requires 0 <= i < |artifacts| =>
      if i < |answers| then artifacts[i].(verified := answers[i].Ok?) else artifacts[i])
  }

  predicate AllOk(answers: seq<Answer>) {
    forall i :: 0 <= i < |answers| ==> answers[i].Ok?
  }

  lemma AllOkStep(answers: seq<Answer>, answer: Answer)
    ensures AllOk(answers + [answer]) <==> AllOk(answers) && answer.Ok?
  {
    var all := answers + [answer];
    assert all[|answers|] == answer && forall i :: 0 <= i < |answers| ==> all[i] == answers[i];
  }

  /** The record a pass makes of `e` from the store's answers. */
  function Verdict(codec: Codec, e: Evidence, answers: seq<Answer>, cancelled: bool): Evidence {
    var verification := if cancelled then Cancelled else if AllOk(answers) then Passed else Failed;
    Evaluated(codec, e.(artifacts := Settled(e.artifacts, answers), revision := 3, verification := verification))
  }

  /** The pass may run. */
  predicate Reserving(codec: Codec, e: Evidence) {
    Valid(codec, e) && e.revision == 2 && e.verification == Reserved
  }

  /** `verify_artifacts`.  `files` is what the store holds under each artifact when the pass
      reaches it, and `token` whether the token is cancelled when it is asked before each
      artifact and, last, after the pass; a cancelled token stays cancelled. */
  method VerifyArtifacts(codec: Codec, e: Evidence, files: nat -> File, limits: Limits, token: nat -> bool)
    returns (r: Option<Evidence>, answers: seq<Answer>, cancelled: bool)
    ensures !Reserving(codec, e) ==> r.None? && answers == []
    ensures Reserving(codec, e) ==>
              var verdict := Verdict(codec, e, answers, cancelled);
              r == if Valid(codec, verdict) then Some(verdict) else None
    ensures Reserving(codec, e) ==>
              && |answers| <= |e.artifacts| && (cancelled <==> token(|answers|))
              && (|answers| < |e.artifacts| ==> cancelled) && forall i :: 0 <= i < |answers| ==> !token(i)
    ensures |answers| <= |e.artifacts|
    ensures forall i :: 0 <= i < |answers| ==> Answered(codec, e.artifacts[i].record, files(i), limits, answers[i])
  {
    cancelled := false;
    answers := [];
    if !Valid(codec, e) || e.revision != 2 || e.verification != Reserved {
      return None, answers, cancelled;
    }
    var artifacts := e.artifacts;
    var failed := false;
    var i := 0;
    while i < |artifacts| && !token(i)
      invariant i == |answers| <= |e.artifacts| && artifacts == Settled(e.artifacts, answers)
      invariant !failed <==> AllOk(answers)
      invariant forall j :: 0 <= j < i ==> !token(j)
      invariant forall j :: 0 <= j < i ==> Answered(codec, e.artifacts[j].record, files(j), limits, answers[j])
    {
      var record := artifacts[i].record;
      var read := ReadVerifiedRange(codec.hash, files(i), limits, record.byteLen, record.reference.contentHash,
                                    0, 0, MAX_VERIFY_BYTES);
      artifacts := artifacts[i := artifacts[i].(verified := read.Ok?)];
      failed := failed || !artifacts[i].verified;
      AllOkStep(answers, read);
      answers := answers + [read];
      i := i + 1;
    }
    cancelled := token(i);
    var verification := if cancelled then Cancelled else if failed then Failed else Passed;
    var verdict := e.(artifacts := artifacts, revision := 3, verification := verification);
    verdict := verdict.(outcome := OutcomeOf(codec, verdict));
    assert verdict == Verdict(codec, e, answers, cancelled);
    if !Valid(codec, verdict) {
      return None, answers, cancelled;
    }
    r := Some(verdict);
  }

  /** A passed verdict vouches for bytes: every artifact's file had the recorded length and
      content hash when the pass read it. */
  lemma PassedMeansGenuine(codec: Codec, e: Evidence, files: nat -> File, limits: Limits, answers: seq<Answer>, i: nat)
    requires |answers| == |e.artifacts|
    requires forall j :: 0 <= j < |answers| ==> Answered(codec, e.artifacts[j].record, files(j), limits, answers[j])
    requires Verdict(codec, e, answers, false).verification == Passed && i < |e.artifacts|
    ensures var record := e.artifacts[i].record;
            && |files(i).content| == record.byteLen <= MAX_VERIFY_BYTES
            && codec.hash(files(i).content) == record.reference.contentHash
            && Verdict(codec, e, answers, false).artifacts[i].verified
  {
    assert answers[i].Ok?;
  }

  // ---------------------------------------------------------------- evaluation, declaratively

  /** Everything that speaks for the work, said without an order of tests. */
  predicate Proven(codec: Codec, e: Evidence) {
    && e.claim == Completed && !e.budget.exceeded && !e.omittedObservations
    && e.deliveredHash.Some? && e.deliveredBytes > 0
    && (e.verification.NotNeeded? || e.verification.Passed?)
    && (forall child :: child in e.childReports ==> IsSupport(child.outcome))
    && (forall effect :: effect in e.effects ==>
          effect.outcome == Acknowledged || (effect.outcome == FailedEffect && EffectRepaired(e, effect)))
    && (forall check :: check in e.checks ==> check.outcome == Succeeded || CheckSuperseded(e, check))
    && (forall fact :: fact in e.artifacts ==> fact.verified && fact.generation == e.generation)
    && (forall condition :: condition in e.contract.conditions ==> Satisfies(codec, e, condition))
  }

  lemma NotUncertain(e: Evidence)
    ensures !Uncertain(e) <==>
              && !e.omittedObservations && (e.verification.NotNeeded? || e.verification.Passed?)
              && (forall effect :: effect in e.effects ==> effect.outcome != Unknown)
              && (forall child :: child in e.childReports ==> child.outcome != NeedsAttention)
  {
  }

  lemma NotUnfinished(e: Evidence)
    ensures !Unfinished(e) <==>
              && e.deliveredHash.Some? && e.deliveredBytes > 0
              && (forall child :: child in e.childReports ==> child.outcome != Incomplete)
              && (forall effect :: effect in e.effects ==>
                    effect.outcome != Declined && (effect.outcome == FailedEffect ==> EffectRepaired(e, effect)))
              && (forall check :: check in e.checks ==> check.outcome == Succeeded || CheckSuperseded(e, check))
              && (forall fact :: fact in e.artifacts ==> fact.verified && fact.generation == e.generation)
  {
  }

  /** Neither uncertain nor unfinished, rearranged. */
  lemma SettledExactlyWhenProven(codec: Codec, e: Evidence)
    requires e.claim == Completed && !e.budget.exceeded
    requires forall condition :: condition in e.contract.conditions ==> Satisfies(codec, e, condition)
    ensures !Uncertain(e) && !Unfinished(e) <==> Proven(codec, e)
  {
    NotUncertain(e);
    NotUnfinished(e);
    assert forall child :: child in e.childReports ==>
      (IsSupport(child.outcome) <==> child.outcome != NeedsAttention && child.outcome != Incomplete);
    assert forall effect :: effect in e.effects ==>
      ((effect.outcome == Acknowledged || (effect.outcome == FailedEffect && EffectRepaired(e, effect)))
       <==> effect.outcome != Unknown && effect.outcome != Declined
            && (effect.outcome == FailedEffect ==> EffectRepaired(e, effect)));
  }

  /** The ordered tests support a record exactly when everything speaks for it. */
  lemma SupportedExactlyWhenProven(codec: Codec, e: Evidence)
    ensures IsSupport(OutcomeOf(codec, e)) <==> Proven(codec, e)
    ensures OutcomeOf(codec, e) == DeliveryVerified <==> Proven(codec, e) && e.contract.conditions == []
  {
    if e.claim == Completed && !e.budget.exceeded
      && forall condition :: condition in e.contract.conditions ==> Satisfies(codec, e, condition) {
      SettledExactlyWhenProven(codec, e);
    }
  }

  /** Everything speaks for the work but possibly its delivery. */
  predicate ProvenButDelivery(codec: Codec, e: Evidence) {
    Proven(codec, e.(deliveredHash := Some(0), deliveredBytes := 1))
  }

  lemma DeliveryLeavesFacts(codec: Codec, e: Evidence, d: Evidence)
    requires d == e.(deliveredHash := d.deliveredHash, deliveredBytes := d.deliveredBytes)
    ensures Proven(codec, d) <==> ProvenButDelivery(codec, e) && d.deliveredHash.Some? && d.deliveredBytes > 0
  {
    var f := e.(deliveredHash := Some(0), deliveredBytes := 1);
    assert forall check, later :: Supersedes(d, check, later) <==> Supersedes(f, check, later);
    assert forall check :: CheckSuperseded(d, check) <==> CheckSuperseded(f, check);
    assert forall effect :: EffectRepaired(d, effect) <==> EffectRepaired(f, effect);
    assert forall c :: Satisfies(codec, d, c) <==> Satisfies(codec, f, c);
  }

  /** Delivery decides support: an undelivered record is never supported, whatever speaks for
      it; delivering bytes supports it if and only if they are not empty and everything else
      speaks for the work; and only the last delivery counts. */
  lemma DeliveryDecidesSupport(codec: Codec, e: Evidence, earlier: Bytes, bytes: Bytes)
    ensures e.deliveredHash.None? ==> !IsSupport(OutcomeOf(codec, e))
    ensures IsSupport(OutcomeOf(codec, WithDelivery(codec, e, bytes))) <==> bytes != [] && ProvenButDelivery(codec, e)
    ensures WithDelivery(codec, WithDelivery(codec, e, earlier), bytes) == WithDelivery(codec, e, bytes)
  {
    SupportedExactlyWhenProven(codec, e);
    SupportedExactlyWhenProven(codec, WithDelivery(codec, e, bytes));
    DeliveryLeavesFacts(codec, e, WithDelivery(codec, e, bytes));
  }

  /** A declared condition has no checker, so it withholds support whatever was observed. */
  lemma DeclaredIsNeverSupported(codec: Codec, e: Evidence)
    requires exists c :: c in e.contract.conditions && c.Declared?
    ensures !IsSupport(OutcomeOf(codec, e))
  {
    SupportedExactlyWhenProven(codec, e);
  }

  /** More work without new checks: a contract that asks for a command is unsupported again,
      and no failed check counts as superseded. */
  lemma RaisedRevisionIsUnsupported(codec: Codec, e: Evidence, revision: nat)
    requires OwnFacts(e) && e.workRevision < revision
    ensures forall check :: check in e.checks ==> !CheckSuperseded(e.(workRevision := revision), check)
    ensures (exists c :: c in e.contract.conditions && c.CommandSucceeded?)
              ==> !IsSupport(OutcomeOf(codec, e.(workRevision := revision)))
  {
    var raised := e.(workRevision := revision);
    SupportedExactlyWhenProven(codec, raised);
    forall c | c in e.contract.conditions && c.CommandSucceeded? ensures !Satisfies(codec, raised, c) {
    }
  }

  // ---------------------------------------------------------------- chains

  function Latest(chain: seq<Evidence>): Option<Evidence> {
    if chain == [] then None else Some(chain[|chain| - 1])
  }

  /** Every record of the history was an admissible successor of the one before it. */
  predicate Accepted(codec: Codec, chain: seq<Evidence>) {
    if chain == [] then true
    else
      var front := chain[..|chain| - 1];
      Accepted(codec, front) && ValidTransition(codec, Latest(front), chain[|chain| - 1])
  }

  predicate SameArtifacts(before: seq<Artifact>, after: seq<Artifact>) {
    && |before| == |after|
    && forall i :: 0 <= i < |before| ==> after[i] == before[i].(verified := after[i].verified)
  }

  /** What a verification result may not touch. */
  predicate Frozen(before: Evidence, after: Evidence) {
    && after.childReports == before.childReports && after.version == before.version
    && after.generation == before.generation && after.kind == before.kind && after.owner == before.owner
    && after.claim == before.claim && after.contract == before.contract
    && after.contractDigest == before.contractDigest && after.deliveredHash == before.deliveredHash
    && after.deliveredBytes == before.deliveredBytes && after.workRevision == before.workRevision
    && after.checks == before.checks && after.effects == before.effects
    && after.omittedObservations == before.omittedObservations && after.budget == before.budget
    && SameArtifacts(before.artifacts, after.artifacts)
    && forall fact :: fact in before.artifacts ==> !fact.verified
  }

  lemma ThirdIsFrozen(before: Evidence, after: Evidence)
    requires ValidSuccessor(before, after) && before.revision == 2
    ensures Frozen(before, after) && before.verification == Reserved
  {
    var restored := Unverified(after.artifacts);
    assert before.artifacts == restored;
    forall i | 0 <= i < |before.artifacts|
      ensures !before.artifacts[i].verified
              && after.artifacts[i] == before.artifacts[i].(verified := after.artifacts[i].verified)
    {
      assert before.artifacts[i] == restored[i];
    }
  }

  predicate SameWork(a: Evidence, b: Evidence) {
    a.generation == b.generation && a.contract == b.contract && a.kind == b.kind && a.owner == b.owner
  }

  /** Where a record can stand in a history. */
  predicate Placed(chain: seq<Evidence>, i: nat)
    requires i < |chain|
  {
    && chain[i].revision == i + 1 && SameWork(chain[i], chain[0])
    && (i == 0 ==> ValidFirst(chain[0]))
    && (i == 1 ==> forall fact :: fact in chain[1].artifacts ==> !fact.verified)
    && (i == 1 ==> chain[1].verification != Passed && chain[1].verification != Failed)
    && (i == 2 ==> Frozen(chain[1], chain[2]) && chain[1].verification == Reserved)
  }

  /** Accepted histories are finite and frozen: at most three records, numbered from one,
      about one piece of work; a third only after a reservation, changing nothing but
      revision, verification, outcome and the artifacts' verified bits; and every recorded
      outcome is the one its evidence evaluates to. */
  lemma {:induction false} ChainsAreFiniteAndFrozen(codec: Codec, chain: seq<Evidence>)
    requires Accepted(codec, chain)
    ensures |chain| <= 3
    ensures forall i :: 0 <= i < |chain| ==> Placed(chain, i) && ValidOutcome(codec, chain[i])
    decreases |chain|
  {
    if chain != [] {
      var front := chain[..|chain| - 1];
      ChainsAreFiniteAndFrozen(codec, front);
      var n := |front|;
      if n > 0 {
        assert Placed(front, n - 1);
        assert ValidSuccessor(front[n - 1], chain[n]);
        if n == 2 { ThirdIsFrozen(front[1], chain[2]); }
      }
      forall i | 0 <= i < n ensures Placed(chain, i) && ValidOutcome(codec, chain[i]) {
        assert Placed(front, i) && front[i] == chain[i];
      }
    }
  }

  lemma EmptyOrNot(artifacts: seq<Artifact>)
    ensures artifacts == [] || exists fact :: fact in artifacts
  {
    if artifacts != [] {
      assert artifacts[0] in artifacts;
    }
  }

  /** Support means proof over the whole history: a supported record is at least the second,
      everything in it speaks for the work, and if it lists any artifact it is the third,
      the passed verification of every one of them. */
  lemma SupportMeansProof(codec: Codec, chain: seq<Evidence>)
    requires Accepted(codec, chain) && chain != [] && Supported(chain[|chain| - 1])
    ensures var last := chain[|chain| - 1];
            && |chain| >= 2 && Proven(codec, last)
            && (last.artifacts != [] ==> |chain| == 3 && last.verification == Passed)
            && (|chain| == 3 ==> last.verification == Passed)
  {
    ChainsAreFiniteAndFrozen(codec, chain);
    var n := |chain|;
    var last := chain[n - 1];
    assert Placed(chain, n - 1) && ValidOutcome(codec, last);
    SupportedExactlyWhenProven(codec, last);
    EmptyOrNot(last.artifacts);
    if n == 3 {
      assert ValidTransition(codec, Latest(chain[..2]), chain[2]);
    }
  }

  /** Nothing follows a verdict, nor a second record without a reservation: one pass at most. */
  lemma VerdictsAreFinal(codec: Codec, chain: seq<Evidence>, next: Evidence)
    requires Accepted(codec, chain) && |chain| >= 2
    requires |chain| == 3 || chain[1].verification != Reserved
    ensures !ValidTransition(codec, Latest(chain), next)
  {
    ChainsAreFiniteAndFrozen(codec, chain);
    assert Placed(chain, |chain| - 1);
  }

  // ---------------------------------------------------------------- operations make chains

  /** A fresh interrupted declaration starts a history, if it fits. */
  lemma DeclarationStartsAChain(codec: Codec, generation: Name, kind: WorkKind, owner: Owner, contract: Contract)
    ensures match New(codec, generation, kind, owner, Interrupted, contract)
            case None => !ContractValid(codec, contract)
            case Some(e) => |codec.evidenceJson(e)| <= MAX_EVIDENCE_BYTES ==> Accepted(codec, [e])
  {
    match New(codec, generation, kind, owner, Interrupted, contract)
    case None =>
    case Some(e) =>
      assert [e][..0] == [];
      assert CheckInvocations([]) == [] && EffectInvocations([]) == [] && ChildGenerations([]) == [];
      if |codec.evidenceJson(e)| <= MAX_EVIDENCE_BYTES {
        assert ValidTransition(codec, None, e);
      }
  }

  /** Considering verification keeps a collected record admissible, reserves only an
      authorized, affordable, uncancelled pass, and does so once. */
  lemma ReservationIsAdmissible(codec: Codec, previous: Evidence, e: Evidence, authorized: bool, cancelled: bool)
    requires previous.revision == 1 && ValidTransition(codec, Some(previous), e) && e.verification == NotNeeded
    ensures Reservation(codec, e, authorized, cancelled).Some?
    ensures var r := Reservation(codec, e, authorized, cancelled).value;
            && (|codec.evidenceJson(r)| <= MAX_EVIDENCE_BYTES ==> ValidTransition(codec, Some(previous), r))
            && (r.verification == Reserved <==>
                  e.artifacts != [] && authorized && !cancelled && !e.budget.exhausted
                  && TotalBytes(e.artifacts) <= MAX_VERIFY_BYTES)
            && (r.verification == Reserved ==> r.budget.verificationBytesReserved == TotalBytes(e.artifacts))
            && (r.verification != NotNeeded ==> Reservation(codec, r, authorized, cancelled).None?)
  {
    CheckedTotalIsTotal(e.artifacts);
    var r := Reservation(codec, e, authorized, cancelled).value;
    assert OutcomeOf(codec, r) == r.outcome by { OutcomeIgnoresOutcome(codec, r); }
  }

  function TotalBytes(artifacts: seq<Artifact>): nat {
    if artifacts == [] then 0 else TotalBytes(artifacts[..|artifacts| - 1]) + artifacts[|artifacts| - 1].record.byteLen
  }

  lemma {:induction false} CheckedTotalIsTotal(artifacts: seq<Artifact>)
    ensures CheckedTotal(artifacts) == if TotalBytes(artifacts) <= U64_MAX then Some(TotalBytes(artifacts)) else None
  {
    if artifacts != [] {
      CheckedTotalIsTotal(artifacts[..|artifacts| - 1]);
    }
  }

  /** Evaluating does not read the outcome it replaces. */
  lemma OutcomeIgnoresOutcome(codec: Codec, e: Evidence)
    ensures forall o :: OutcomeOf(codec, e.(outcome := o)) == OutcomeOf(codec, e)
  {
    forall o ensures OutcomeOf(codec, e.(outcome := o)) == OutcomeOf(codec, e) {
      SameOutcome(codec, e, e.(outcome := o));
    }
  }

  lemma SameOutcome(codec: Codec, a: Evidence, b: Evidence)
    requires b == a.(outcome := b.outcome)
    ensures OutcomeOf(codec, a) == OutcomeOf(codec, b)
  {
    assert forall check :: CheckSuperseded(a, check) <==> CheckSuperseded(b, check) by {
      assert forall check, later :: Supersedes(a, check, later) <==> Supersedes(b, check, later);
    }
    assert forall effect :: EffectRepaired(a, effect) <==> EffectRepaired(b, effect);
    assert forall c :: Satisfies(codec, a, c) <==> Satisfies(codec, b, c);
    assert Uncertain(a) == Uncertain(b);
    assert Unfinished(a) == Unfinished(b);
  }

  /** Whatever VerifyArtifacts returns on a reserved second record is its one admissible
      successor: the history [declaration, reservation, verdict] is accepted. */
  lemma VerdictCompletesTheChain(codec: Codec, chain: seq<Evidence>, answers: seq<Answer>, cancelled: bool)
    requires Accepted(codec, chain) && |chain| == 2 && chain[1].verification == Reserved
    requires Valid(codec, Verdict(codec, chain[1], answers, cancelled))
    ensures Accepted(codec, chain + [Verdict(codec, chain[1], answers, cancelled)])
  {
    var e := chain[1];
    var verdict := Verdict(codec, e, answers, cancelled);
    ChainsAreFiniteAndFrozen(codec, chain);
    assert Placed(chain, 1);
    SameOutcome(codec, verdict.(outcome := e.outcome), verdict);
    assert Unverified(verdict.artifacts) == e.artifacts by {
      forall i | 0 <= i < |e.artifacts| ensures verdict.artifacts[i].(verified := false) == e.artifacts[i] {
        assert e.artifacts[i] in e.artifacts;
      }
    }
    assert (chain + [verdict])[..2] == chain;
    assert ValidTransition(codec, Latest(chain), verdict);
  }
}
