/** Drop accounting of concurrent diagnostic emitters, the breadcrumb ring, and the rotating
    log file.

    Emitters interleave one atomic operation at a time.  Counters are u64 and wrap; the
    state also counts the wraps.  Whether a record encodes and the channel has room is a
    choice of each step.  Records carry what the accounting needs. */
module Diagnostics {
  import opened Common

  const MAX_BREADCRUMBS: nat := 64
  const WRAP: nat := U64_MAX + 1

  datatype Record = Record(sequence: nat, droppedBefore: nat)

  datatype Phase =
    | Started                          // past the level filter
    | Numbered(sequence: nat)
    | Carrying(record: Record)         // the dropped counter is swapped out
    | Remembered(record: Record)       // among the breadcrumbs
    | Refused(carried: nat)            // the record is dropped; nothing added yet
    | Refunded                         // the dropped counter is added to, the total is not
    | Done

  datatype State = State(
    issued: nat,                       // numbers handed out; the counter is this modulo WRAP
    dropped: nat, droppedWraps: nat, total: nat, totalWraps: nat,
    emitters: seq<Phase>, accepted: seq<Record>, remembered: seq<Record>, crumbs: seq<Record>)

  datatype Event =
    | Start
    | Number(i: nat)
    | Swap(i: nat)
    | Remember(i: nat)
    | Send(i: nat, fits: bool)
    | Refund(i: nat)
    | Count(i: nat)

  function Initial(): State {
    State(0, 0, 0, 0, 0, [], [], [], [])
  }

  predicate Enabled(s: State, e: Event) {
    match e
    case Start => true
    case Number(i) => i < |s.emitters| && s.emitters[i].Started?
    case Swap(i) => i < |s.emitters| && s.emitters[i].Numbered?
    case Remember(i) => i < |s.emitters| && s.emitters[i].Carrying?
    case Send(i, _) => i < |s.emitters| && s.emitters[i].Remembered?
    case Refund(i) => i < |s.emitters| && s.emitters[i].Refused?
    case Count(i) => i < |s.emitters| && s.emitters[i].Refunded?
  }

  function Moved(s: State, i: nat, phase: Phase): State
    requires i < |s.emitters|
  {
    s.(emitters := s.emitters[i := phase])
  }

  /** The breadcrumbs after one more record: the oldest leaves a full ring. */
  function Retained(crumbs: seq<Record>, record: Record): seq<Record> {
    (if |crumbs| == MAX_BREADCRUMBS then crumbs[1..] else crumbs) + [record]
  }

  function Apply(s: State, e: Event): State
    requires Enabled(s, e)
  {
    match e
    case Start => s.(emitters := s.emitters + [Started])
    case Number(i) => Moved(s, i, Numbered((s.issued + 1) % WRAP)).(issued := s.issued + 1)
    case Swap(i) => Moved(s, i, Carrying(Record(s.emitters[i].sequence, s.dropped))).(dropped := 0)
    case Remember(i) =>
      var record := s.emitters[i].record;
      Moved(s, i, Remembered(record)).(crumbs := Retained(s.crumbs, record), remembered := s.remembered + [record])
    case Send(i, fits) =>
      var record := s.emitters[i].record;
      if fits then Moved(s, i, Done).(accepted := s.accepted + [record])
      else Moved(s, i, Refused(record.droppedBefore))
    case Refund(i) =>
      var sum := s.dropped + s.emitters[i].carried + 1;
      Moved(s, i, Refunded).(dropped := sum % WRAP, droppedWraps := s.droppedWraps + sum / WRAP)
    case Count(i) =>
      var sum := s.total + 1;
      Moved(s, i, Done).(total := sum % WRAP, totalWraps := s.totalWraps + sum / WRAP)
  }

  function Final(es: seq<Event>): Option<State> {
    if es == [] then Some(Initial())
    else
      var before := Final(es[..|es| - 1]);
      var e := es[|es| - 1];
      if before.Some? && Enabled(before.value, e) then Some(Apply(before.value, e)) else None
  }

  // ---------------------------------------------------------------- conservation

  /** Drops an emitter holds between taking them and passing them on. */
  function Carried(phase: Phase): nat {
    match phase
    case Carrying(record) => record.droppedBefore
    case Remembered(record) => record.droppedBefore
    case Refused(carried) => carried
    case _ => 0
  }

  function Between(phase: Phase): nat {
    if phase.Refunded? then 1 else 0
  }

  function InFlight(emitters: seq<Phase>): nat {
    if emitters == [] then 0 else InFlight(emitters[..|emitters| - 1]) + Carried(emitters[|emitters| - 1])
  }

  /** Emitters between their two increments. */
  function Halfway(emitters: seq<Phase>): nat {
    if emitters == [] then 0 else Halfway(emitters[..|emitters| - 1]) + Between(emitters[|emitters| - 1])
  }

  function Told(accepted: seq<Record>): nat {
    if accepted == [] then 0 else Told(accepted[..|accepted| - 1]) + accepted[|accepted| - 1].droppedBefore
  }

  lemma {:induction false} EmitterMoves(emitters: seq<Phase>, i: nat, phase: Phase)
    requires i < |emitters|
    ensures InFlight(emitters[i := phase]) == InFlight(emitters) - Carried(emitters[i]) + Carried(phase)
    ensures Halfway(emitters[i := phase]) == Halfway(emitters) - Between(emitters[i]) + Between(phase)
    decreases |emitters|
  {
    var front := emitters[..|emitters| - 1];
    var moved := emitters[i := phase];
    if i == |emitters| - 1 {
      assert moved[..|moved| - 1] == front;
    } else {
      assert moved[..|moved| - 1] == front[i := phase];
      EmitterMoves(front, i, phase);
    }
  }

  /** Pending drops, drops in flight and drops told in accepted records are the total and the
      emitters halfway through adding one. */
  predicate Conserved(s: State) {
    s.dropped + WRAP * s.droppedWraps + InFlight(s.emitters) + Told(s.accepted)
    == s.total + WRAP * s.totalWraps + Halfway(s.emitters)
  }

  lemma Division(n: nat)
    ensures n % WRAP + WRAP * (n / WRAP) == n
  {
  }

  lemma StartConserves(s: State)
    requires Conserved(s)
    ensures Conserved(Apply(s, Start))
  {
    assert (s.emitters + [Started])[..|s.emitters|] == s.emitters;
  }

  /** A step that only passes drops between the counter, the emitter and the records. */
  lemma PassingConserves(s: State, e: Event)
    requires Conserved(s) && Enabled(s, e) && (e.Number? || e.Swap? || e.Remember? || e.Send?)
    ensures Conserved(Apply(s, e))
  {
    var t := Apply(s, e);
    EmitterMoves(s.emitters, e.i, t.emitters[e.i]);
    if e.Send? && e.fits {
      assert t.accepted[..|s.accepted|] == s.accepted;
    }
  }

  lemma RefundConserves(s: State, i: nat)
    requires Conserved(s) && Enabled(s, Refund(i))
    ensures Conserved(Apply(s, Refund(i)))
  {
    EmitterMoves(s.emitters, i, Refunded);
    Division(s.dropped + s.emitters[i].carried + 1);
  }

  lemma CountConserves(s: State, i: nat)
    requires Conserved(s) && Enabled(s, Count(i))
    ensures Conserved(Apply(s, Count(i)))
  {
    EmitterMoves(s.emitters, i, Done);
    Division(s.total + 1);
  }

  lemma ConservedStep(s: State, e: Event)
    requires Conserved(s) && Enabled(s, e)
    ensures Conserved(Apply(s, e))
  {
    match e
    case Start => StartConserves(s);
    case Number(_) => PassingConserves(s, e);
    case Swap(_) => PassingConserves(s, e);
    case Remember(_) => PassingConserves(s, e);
    case Send(_, _) => PassingConserves(s, e);
    case Refund(i) => RefundConserves(s, i);
    case Count(i) => CountConserves(s, i);
  }

  /** No drop is forgotten or told twice, in any interleaving, wraps included. */
  lemma {:induction false} DropsAreConserved(es: seq<Event>)
    requires Final(es).Some?
    ensures Conserved(Final(es).value)
    decreases |es|
  {
    if es != [] {
      DropsAreConserved(es[..|es| - 1]);
      ConservedStep(Final(es[..|es| - 1]).value, es[|es| - 1]);
    }
  }

  lemma {:induction false} NothingInFlight(emitters: seq<Phase>)
    requires forall i :: 0 <= i < |emitters| ==> emitters[i].Done?
    ensures InFlight(emitters) == 0 && Halfway(emitters) == 0
  {
    if emitters != [] {
      NothingInFlight(emitters[..|emitters| - 1]);
    }
  }

  /** At quiescence, while neither counter has wrapped, the pending count and what accepted
      records tell are exactly the total. */
  lemma QuiescentDropsAreExact(es: seq<Event>)
    requires Final(es).Some?
    requires var s := Final(es).value;
             (forall i :: 0 <= i < |s.emitters| ==> s.emitters[i].Done?) && s.droppedWraps == 0 && s.totalWraps == 0
    ensures var s := Final(es).value; s.dropped + Told(s.accepted) == s.total
  {
    DropsAreConserved(es);
    NothingInFlight(Final(es).value.emitters);
  }

  // ---------------------------------------------------------------- sequence numbers and breadcrumbs

  function NumberOf(phase: Phase): Option<nat> {
    match phase
    case Numbered(n) => Some(n)
    case Carrying(record) => Some(record.sequence)
    case Remembered(record) => Some(record.sequence)
    case _ => None
  }

  /** Every number is in one place: an emitter still holds it, or one accepted record has it. */
  predicate Unique(s: State) {
    && (forall i :: 0 <= i < |s.emitters| && NumberOf(s.emitters[i]).Some? ==>
          0 < NumberOf(s.emitters[i]).value <= s.issued)
    && (forall i, j :: 0 <= i < j < |s.emitters| && NumberOf(s.emitters[i]).Some? ==>
          NumberOf(s.emitters[i]) != NumberOf(s.emitters[j]))
    && (forall k :: 0 <= k < |s.accepted| ==> 0 < s.accepted[k].sequence <= s.issued)
    && (forall k, l :: 0 <= k < l < |s.accepted| ==> s.accepted[k].sequence != s.accepted[l].sequence)
    && forall i, k :: 0 <= i < |s.emitters| && 0 <= k < |s.accepted| ==>
         NumberOf(s.emitters[i]) != Some(s.accepted[k].sequence)
  }

  lemma StartKeepsUnique(s: State)
    requires Unique(s)
    ensures Unique(Apply(s, Start))
  {
  }

  lemma NumberKeepsUnique(s: State, i: nat)
    requires Unique(s) && Enabled(s, Number(i)) && s.issued + 1 < WRAP
    ensures Unique(Apply(s, Number(i)))
  {
    SmallNumber(s.issued + 1);
  }

  lemma SmallNumber(n: nat)
    requires n < WRAP
    ensures n % WRAP == n
  {
  }

  /** An emitter moves on, keeping its number or giving it up. */
  lemma MoveKeepsUnique(s: State, t: State, i: nat, phase: Phase)
    requires Unique(s) && i < |s.emitters| && (NumberOf(phase) == NumberOf(s.emitters[i]) || NumberOf(phase).None?)
    requires t.emitters == s.emitters[i := phase] && t.accepted == s.accepted && t.issued == s.issued
    ensures Unique(t)
  {
  }

  lemma AcceptKeepsUnique(s: State, i: nat)
    requires Unique(s) && Enabled(s, Send(i, true))
    ensures Unique(Apply(s, Send(i, true)))
  {
    var record := s.emitters[i].record;
    assert NumberOf(s.emitters[i]) == Some(record.sequence);
    assert forall k :: 0 <= k < |s.accepted| ==> s.accepted[k].sequence != record.sequence;
  }

  lemma UniqueStep(s: State, e: Event)
    requires Unique(s) && Enabled(s, e) && Apply(s, e).issued < WRAP
    ensures Unique(Apply(s, e))
  {
    var t := Apply(s, e);
    match e
    case Start => StartKeepsUnique(s);
    case Number(i) => NumberKeepsUnique(s, i);
    case Swap(i) => MoveKeepsUnique(s, t, i, t.emitters[i]);
    case Remember(i) => MoveKeepsUnique(s, t, i, t.emitters[i]);
    case Send(i, fits) =>
      if fits {
        AcceptKeepsUnique(s, i);
      } else {
        MoveKeepsUnique(s, t, i, t.emitters[i]);
      }
    case Refund(i) => MoveKeepsUnique(s, t, i, t.emitters[i]);
    case Count(i) => MoveKeepsUnique(s, t, i, t.emitters[i]);
  }

  lemma IssuedGrows(s: State, e: Event)
    requires Enabled(s, e)
    ensures s.issued <= Apply(s, e).issued
  {
  }

  /** Accepted records have different sequence numbers while the counter has not wrapped. */
  lemma {:induction false} SequenceNumbersAreDistinct(es: seq<Event>)
    requires Final(es).Some? && Final(es).value.issued < WRAP
    ensures Unique(Final(es).value)
    decreases |es|
  {
    if es != [] {
      var s := Final(es[..|es| - 1]).value;
      IssuedGrows(s, es[|es| - 1]);
      SequenceNumbersAreDistinct(es[..|es| - 1]);
      UniqueStep(s, es[|es| - 1]);
    }
  }

  /** The last `n` of `s`, or all of it. */
  function Last(s: seq<Record>, n: nat): seq<Record> {
    if |s| <= n then s else s[|s| - n..]
  }

  lemma RetainedIsLast(history: seq<Record>, record: Record)
    ensures Retained(Last(history, MAX_BREADCRUMBS), record) == Last(history + [record], MAX_BREADCRUMBS)
  {
    if |history| >= MAX_BREADCRUMBS {
      var kept := Last(history, MAX_BREADCRUMBS);
      assert kept[1..] == history[|history| - MAX_BREADCRUMBS + 1..];
      assert history[|history| - MAX_BREADCRUMBS + 1..] + [record]
             == (history + [record])[|history| - MAX_BREADCRUMBS + 1..];
    }
  }

  lemma CrumbsStep(s: State, e: Event)
    requires s.crumbs == Last(s.remembered, MAX_BREADCRUMBS) && Enabled(s, e)
    ensures Apply(s, e).crumbs == Last(Apply(s, e).remembered, MAX_BREADCRUMBS)
  {
    if e.Remember? {
      RetainedIsLast(s.remembered, s.emitters[e.i].record);
    }
  }

  /** The ring holds the last sixty-four records remembered, dropped ones included. */
  lemma {:induction false} CrumbsAreTheLast(es: seq<Event>)
    requires Final(es).Some?
    ensures Final(es).value.crumbs == Last(Final(es).value.remembered, MAX_BREADCRUMBS)
    decreases |es|
  {
    if es != [] {
      CrumbsAreTheLast(es[..|es| - 1]);
      CrumbsStep(Final(es[..|es| - 1]).value, es[|es| - 1]);
    }
  }

  // ---------------------------------------------------------------- one emission in place

  /** The emitter started last takes the record up to the channel. */
  function Offered(s: State): (t: State)
    ensures |t.emitters| == |s.emitters| + 1 && t.emitters[|s.emitters|].Remembered?
  {
    var i := |s.emitters|;
    Apply(Apply(Apply(Apply(s, Start), Number(i)), Swap(i)), Remember(i))
  }

  /** One emission with nobody else stepping. */
  function EmitAlone(s: State, fits: bool): State {
    var i := |s.emitters|;
    var sent := Apply(Offered(s), Send(i, fits));
    if fits then sent else Apply(Apply(sent, Refund(i)), Count(i))
  }

  lemma OfferedFields(s: State)
    ensures var t := Offered(s);
            var record := Record((s.issued + 1) % WRAP, s.dropped);
            && t.emitters[|s.emitters|] == Remembered(record) && t.issued == s.issued + 1 && t.dropped == 0
            && t.total == s.total && t.accepted == s.accepted && t.crumbs == Retained(s.crumbs, record)
            && t.remembered == s.remembered + [record]
  {
  }

  /** One emission, exactly: it takes the next number, from one on, and all the pending drops, and
      is remembered; then it is accepted, or is one drop more and gives the others back. */
  lemma EmissionExactly(s: State, fits: bool)
    ensures var t, number := EmitAlone(s, fits), (s.issued + 1) % 0x1_0000_0000_0000_0000;
            && t.issued == s.issued + 1 && t.emitters == s.emitters + [Done]
            && t.remembered == s.remembered + [Record(number, s.dropped)]
            && (if fits then
                  && t.accepted == s.accepted + [Record(number, s.dropped)]
                  && t.dropped == 0 && t.total == s.total
                else
                  && t.accepted == s.accepted
                  && t.dropped == (s.dropped + 1) % 0x1_0000_0000_0000_0000
                  && t.total == (s.total + 1) % 0x1_0000_0000_0000_0000)
            && t.crumbs[|t.crumbs| - 1] == Record(number, s.dropped)
            && t.crumbs[..|t.crumbs| - 1] == (if |s.crumbs| == 64 then s.crumbs[1..] else s.crumbs)
  {
    OfferedFields(s);
    var t := Offered(s);
    assert t.emitters == s.emitters + [Remembered(Record((s.issued + 1) % WRAP, s.dropped))];
  }

  class ActiveDiagnostics {
    var sequence: nat
    var dropped: nat
    var droppedTotal: nat
    var breadcrumbs: seq<Record>
    ghost var model: State

    /** The fields are those of the model's state. */
    ghost predicate Valid()
      reads this
    {
      && sequence == model.issued % WRAP && dropped == model.dropped && droppedTotal == model.total
      && breadcrumbs == model.crumbs
    }

    constructor ()
      ensures Valid() && model == Initial()
    {
      sequence, dropped, droppedTotal, breadcrumbs := 0, 0, 0, [];
      model := Initial();
    }

    /** `retain_breadcrumb`. */
    method RetainBreadcrumb(record: Record)
      modifies this`breadcrumbs
      ensures breadcrumbs == Retained(old(breadcrumbs), record)
    {
      if |breadcrumbs| == MAX_BREADCRUMBS {
        breadcrumbs := breadcrumbs[1..];
      }
      breadcrumbs := breadcrumbs + [record];
    }

    /** `emit`, past the level filter. */
    method Emit(fits: bool) returns (accepted: Option<Record>)
      requires Valid()
      modifies this
      ensures Valid() && model == EmitAlone(old(model), fits)
      ensures accepted.Some? <==> fits
      ensures model.accepted == if fits then old(model).accepted + [accepted.value] else old(model).accepted
    {
      OfferedFields(model);
      NextNumber(model.issued);
      sequence := (sequence + 1) % WRAP;
      var carried := dropped;
      dropped := 0;
      var record := Record(sequence, carried);
      RetainBreadcrumb(record);
      model := EmitAlone(model, fits);
      if fits {
        return Some(record);
      }
      dropped := (dropped + (carried + 1)) % WRAP;
      droppedTotal := (droppedTotal + 1) % WRAP;
      accepted := None;
    }
  }

  lemma NextNumber(issued: nat)
    ensures (issued % WRAP + 1) % WRAP == (issued + 1) % WRAP
  {
    Division(issued);
    Division(issued + 1);
    Division(issued % WRAP + 1);
  }
}
