/** Runs that show what deferred delivery does not promise: a bound on the queue, first in
    first out, and a word about every loss. */
module DeferredExamples {
  import opened DeferredQueue
  import opened DeferredRuns
  import opened DeferredLosses
  import opened DeferredOrder

  // ---------------------------------------------------------------- a stalled receiver

  const FILLER := Update(HostObservation, Direct(0))

  /** n direct updates, none received. */
  function Filled(n: nat): State {
    INIT.(sent := seq(n, _ => FILLER))
  }

  predicate Stalled(es: seq<Event>) {
    forall i :: 0 <= i < |es| ==> es[i] != Receive
  }

  lemma {:induction false} Fill(n: nat) returns (es: seq<Event>)
    requires n <= UPDATE_CAPACITY
    ensures Legal(INIT, es) && Final(INIT, es) == Filled(n) && Stalled(es)
  {
    es := [];
    if n == 0 {
      assert Filled(0).sent == [];
    } else {
      es := Fill(n - 1);
      RunThen(INIT, es, PublishSent(HostObservation));
      assert Filled(n - 1).sent + [FILLER] == Filled(n).sent;
      es := es + [PublishSent(HostObservation)];
    }
  }

  /** The channel is open and full. */
  predicate Full(s: State) {
    s.open && s.received + UPDATE_CAPACITY <= |s.sent|
  }

  /** A critical publish that finds the channel full. */
  function Offers(k: Kind): seq<Event> {
    [Critical(k), CriticalFull(k), Deferral(k)]
  }

  function Deferred(s: State, k: Kind): State {
    AfterDeferral(s, k).(deferring := s.deferring)
  }

  lemma Handed(s: State, k: Kind)
    requires Full(s)
    ensures Enabled(Apply(s, Critical(k)), CriticalFull(k))
    ensures Apply(Apply(s, Critical(k)), CriticalFull(k)) == s.(deferring := s.deferring + multiset{k})
  {
    var s2 := Apply(Apply(s, Critical(k)), CriticalFull(k));
    assert s2.retrying == s.retrying;
  }

  lemma DeferredFrom(s: State, k: Kind)
    ensures var s2 := s.(deferring := s.deferring + multiset{k});
            Enabled(s2, Deferral(k)) && Apply(s2, Deferral(k)) == Deferred(s, k)
  {
    assert (s.deferring + multiset{k}) - multiset{k} == s.deferring;
  }

  lemma ThreeEvents(s: State, a: Event, b: Event, c: Event)
    requires Enabled(s, a) && Enabled(Apply(s, a), b) && Enabled(Apply(Apply(s, a), b), c)
    ensures Legal(s, [a, b, c]) && Final(s, [a, b, c]) == Apply(Apply(Apply(s, a), b), c)
  {
    OneEvent(s, a);
    RunThen(s, [a], b);
    RunThen(s, [a] + [b], c);
    assert [a, b, c] == [a] + [b] + [c];
  }

  lemma DeferWhenFull(s: State, k: Kind)
    requires Full(s)
    ensures Legal(s, Offers(k)) && Final(s, Offers(k)) == Deferred(s, k) && Full(Deferred(s, k))
  {
    Handed(s, k);
    DeferredFrom(s, k);
    ThreeEvents(s, Critical(k), CriticalFull(k), Deferral(k));
  }

  /** A run, and one more deferral. */
  lemma DeferAfter(es: seq<Event>, k: Kind)
    requires Legal(INIT, es) && Full(Final(INIT, es))
    ensures Legal(INIT, es + Offers(k)) && Final(INIT, es + Offers(k)) == Deferred(Final(INIT, es), k)
    ensures Full(Final(INIT, es + Offers(k))) && (Stalled(es) ==> Stalled(es + Offers(k)))
  {
    DeferWhenFull(Final(INIT, es), k);
    RunsConcatenate(INIT, es, Offers(k));
  }

  lemma {:induction false} StalledResults(n: nat) returns (es: seq<Event>)
    requires n <= DEFERRED_CRITICAL_CAPACITY
    ensures Legal(INIT, es) && Stalled(es) && Full(Final(INIT, es))
    ensures var q := Final(INIT, es).d.queue; |q| == n && AllPriority(q)
    ensures Noticeless(Final(INIT, es))
  {
    if n == 0 {
      es := Fill(UPDATE_CAPACITY);
      NoticelessFilled(UPDATE_CAPACITY);
    } else {
      es := StalledResults(n - 1);
      NoticelessDeferred(Final(INIT, es), CommandResult);
      DeferAfter(es, CommandResult);
      es := es + Offers(CommandResult);
    }
  }

  lemma QueueOfDeferred(s: State, k: Kind)
    ensures Deferred(s, k).d.queue == Queued(s.d, Update(k, Offered(|s.offered|))).queue
  {
  }

  lemma FlagsDoNotMatter(d: Delivery, d': Delivery, u: Update)
    requires d.queue == d'.queue
    ensures Queued(d, u).queue == Queued(d', u).queue
  {
  }

  lemma {:induction false} AlternatedQueue(d: Delivery, d1: Delivery, u: Update, v: Update)
    requires |d.queue| >= DEFERRED_CRITICAL_CAPACITY && AllPriority(d.queue)
    requires u.kind == Snapshot && v.kind == CommandResult && d1.queue == Queued(d, u).queue
    ensures var q := Queued(d1, v).queue; |q| == |d.queue| + 1 && AllPriority(q)
  {
    OneAlternation(d, u, v);
    FlagsDoNotMatter(d1, Queued(d, u), v);
  }

  lemma Alternated(s: State, s1: State, s2: State)
    requires |s.d.queue| >= DEFERRED_CRITICAL_CAPACITY && AllPriority(s.d.queue)
    requires s1 == Deferred(s, Snapshot) && s2 == Deferred(s1, CommandResult)
    ensures |s2.d.queue| == |s.d.queue| + 1 && AllPriority(s2.d.queue)
  {
    QueueOfDeferred(s, Snapshot);
    QueueOfDeferred(s1, CommandResult);
    AlternatedQueue(s.d, s1.d, Update(Snapshot, Offered(|s.offered|)), Update(CommandResult, Offered(|s1.offered|)));
  }

  lemma AlternateOnce(es: seq<Event>) returns (longer: seq<Event>)
    requires Legal(INIT, es) && Stalled(es) && Full(Final(INIT, es))
    ensures Legal(INIT, longer) && Stalled(longer) && Full(Final(INIT, longer))
    ensures Final(INIT, longer) == Deferred(Deferred(Final(INIT, es), Snapshot), CommandResult)
  {
    DeferAfter(es, Snapshot);
    DeferAfter(es + Offers(Snapshot), CommandResult);
    longer := es + Offers(Snapshot) + Offers(CommandResult);
  }

  /** While the receiver is stalled the queue has no bound: for every n some run from the start
      in which nothing is received leaves 64 + n updates queued. */
  lemma {:induction false} StalledQueueGrowsWithoutBound(n: nat) returns (es: seq<Event>)
    ensures Legal(INIT, es) && Stalled(es) && Full(Final(INIT, es))
    ensures var q := Final(INIT, es).d.queue; |q| == DEFERRED_CRITICAL_CAPACITY + n && AllPriority(q)
  {
    if n == 0 {
      es := StalledResults(DEFERRED_CRITICAL_CAPACITY);
    } else {
      var shorter := StalledQueueGrowsWithoutBound(n - 1);
      var s := Final(INIT, shorter);
      Alternated(s, Deferred(s, Snapshot), Deferred(Deferred(s, Snapshot), CommandResult));
      es := AlternateOnce(shorter);
    }
  }

  // ---------------------------------------------------------------- a direct send overtakes

  lemma ReachPending() returns (es: seq<Event>)
    ensures Legal(INIT, es) && HasPending(Final(INIT, es)) && HasRoom(Final(INIT, es))
  {
    es := Fill(UPDATE_CAPACITY);
    DeferAfter(es, CommandResult);
    es := es + Offers(CommandResult);
    RunThen(INIT, es, Receive);
    es := es + [Receive];
  }

  lemma OvertakingBreaksOrder(s: State, e: Event, more: seq<Event>)
    requires Enabled(s, e) && IsDirect(e) && Legal(Apply(s, e), more) && Overtaken(s, Final(Apply(s, e), more))
    ensures !Ordered(Places(Final(Apply(s, e), more)), true, Final(Apply(s, e), more).sent)
  {
    var t := Final(Apply(s, e), more);
    SentGrows(Apply(s, e), more);
    assert t.sent[|s.sent|] == Apply(s, e).sent[|s.sent|] == Update(e.kind, Direct(|s.offered|));
    var q :| |s.sent| < q < |t.sent| && t.sent[q].body.Offered? && t.sent[q].body.index < |s.offered|;
    assert !MayPrecede(Places(t), true, t.sent[|s.sent|], t.sent[q]);
  }

  /** First in first out fails: a publish made after an update was deferred is delivered before
      it, once the receiver has taken one update and before the flusher has run. */
  lemma PublishOvertakesDeferral()
    ensures exists es :: Legal(INIT, es) && !Ordered(Places(Final(INIT, es)), true, Final(INIT, es).sent)
  {
    var es := ReachPending();
    var s, e := Final(INIT, es), PublishSent(Vision);
    DirectOvertakesExactlyThePending(es, s, e);
    var more :| Legal(Apply(s, e), more) && Overtaken(s, Final(Apply(s, e), more));
    OvertakingBreaksOrder(s, e, more);
    RunThen(INIT, es, e);
    RunsConcatenate(INIT, es + [e], more);
    var whole := es + [e] + more;
    assert Legal(INIT, whole) && !Ordered(Places(Final(INIT, whole)), true, Final(INIT, whole).sent);
  }

  // ---------------------------------------------------------------- the flusher can finish

  function Work(s: State): nat {
    |s.d.queue| + if s.d.resync then 1 else 0
  }

  /** Steps that are left until no flusher runs. */
  function StepsLeft(s: State): nat
    requires |s.tasks| <= 1
  {
    if s.tasks == [] then 0
    else
      1 + 4 * Work(s) + match s.tasks[0]
                        case Starting => 1
                        case AtLoop => 0
                        case Sending(_) => if HasRoom(s) then 2 else 3
                        case Rejected => 0
  }

  function NextStep(s: State): Event
    requires |s.tasks| == 1
  {
    match s.tasks[0]
    case Starting => Begin(0)
    case AtLoop => Take(0)
    case Sending(_) => if HasRoom(s) then SendOk(0) else Receive
    case Rejected => CleanUp(0)
  }

  /** What the channel accepted since was not sent directly. */
  predicate OnlyDeferred(s: State, t: State) {
    s.sent <= t.sent && forall p :: |s.sent| <= p < |t.sent| ==> !t.sent[p].body.Direct?
  }

  /** What each step of the flusher leaves alone. */
  predicate Continues(s: State, t: State) {
    && |t.tasks| <= 1 && t.offered == s.offered && t.at == s.at && t.open && OnlyDeferred(s, t)
    && (!s.d.resync ==> !t.d.resync && t.emitted == s.emitted)
  }

  lemma TakeDescends(s: State)
    requires Live(s) && |s.tasks| == 1 && s.tasks[0] == AtLoop
    ensures var t := AfterTake(s, 0); Continues(s, t) && StepsLeft(t) < StepsLeft(s)
  {
  }

  lemma SendDescends(s: State)
    requires Live(s) && |s.tasks| == 1 && s.tasks[0].Sending?
    ensures Enabled(s, NextStep(s)) && NextStep(s) != Close
    ensures var t := Apply(s, NextStep(s)); Continues(s, t) && StepsLeft(t) < StepsLeft(s)
  {
  }

  lemma NextStepDescends(s: State)
    requires Live(s) && |s.tasks| == 1
    ensures Enabled(s, NextStep(s)) && NextStep(s) != Close
    ensures var t := Apply(s, NextStep(s)); Continues(s, t) && StepsLeft(t) < StepsLeft(s)
  {
    match s.tasks[0]
    case Starting =>
    case AtLoop => TakeDescends(s);
    case Sending(_) => SendDescends(s);
    case Rejected =>
  }

  /** From every state with the receiver there, the flusher can bring its work to an end. */
  lemma {:induction false} Drains(s: State) returns (es: seq<Event>)
    requires Live(s) && |s.tasks| <= 1
    ensures Legal(s, es)
    ensures var t := Final(s, es);
            && t.open && !t.d.flushing && t.offered == s.offered && t.at == s.at && OnlyDeferred(s, t)
            && (!s.d.resync ==> t.emitted == s.emitted)
    decreases StepsLeft(s)
  {
    es := [];
    if s.tasks != [] {
      var e := NextStep(s);
      NextStepDescends(s);
      LiveStep(s, e);
      var rest := Drains(Apply(s, e));
      OneEvent(s, e);
      RunsConcatenate(s, [e], rest);
      es := [e] + rest;
    }
  }

  // ---------------------------------------------------------------- silent losses

  /** A run that ends idle, and whose stream after the point of offer i has neither the update,
      nor one that restates it, nor a ResyncRequired. */
  ghost predicate LosesInSilence(es: seq<Event>, i: nat) {
    && Legal(INIT, es)
    && var s := Final(INIT, es);
       s.open && !s.d.flushing && i < |s.offered| == |s.at| && !Said(s, i) && !Notified(s, i)
  }

  /** Nobody asked the receiver to look again, and nobody is about to. */
  predicate Noticeless(s: State) {
    && s.emitted == 0 && (forall k :: 0 <= k < |s.offered| ==> s.offered[k] != ResyncRequired)
    && forall p :: 0 <= p < |s.sent| ==> s.sent[p].kind != ResyncRequired
  }

  lemma NoticelessDeferred(s: State, k: Kind)
    requires Noticeless(s) && k != ResyncRequired
    ensures Noticeless(Deferred(s, k))
  {
  }

  lemma NoticelessFilled(n: nat)
    ensures Noticeless(Filled(n))
  {
  }

  lemma NoticelessLater(s: State, t: State)
    requires Noticeless(s) && Ledger(t) && t.emitted == 0 && t.offered == s.offered && OnlyDeferred(s, t)
    ensures Noticeless(t)
  {
    forall p | 0 <= p < |t.sent| ensures t.sent[p].kind != ResyncRequired {
      assert Genuine(t, t.sent[p], Delivered);
      assert p < |s.sent| ==> t.sent[p] == s.sent[p];
    }
  }

  /** Offer i is an attachment that is lost or dropped. */
  predicate Silent(s: State, i: nat)
    requires i < |s.fate| && i < |s.offered|
  {
    s.offered[i] == AttachmentStaged && (s.fate[i].Lost? || s.fate[i].Dropped?)
  }

  lemma DrainsSilently(s: State, i: nat) returns (es: seq<Event>)
    requires Live(s) && !s.d.resync && i < |s.fate| == |s.offered| && |s.tasks| <= 1
    requires Silent(s, i) && Noticeless(s)
    ensures Legal(s, es)
    ensures var t := Final(s, es);
            t.open && !t.d.flushing && i < |t.fate| && i < |t.offered| && Silent(t, i) && Noticeless(t)
  {
    es := Drains(s);
    SettledForGood(s, es, i);
    GoodRun(s, es);
    NoticelessLater(s, Final(s, es));
  }

  lemma Sizes(es: seq<Event>, s: State)
    requires Legal(INIT, es) && s == Final(INIT, es)
    ensures |s.fate| == |s.offered| && |s.tasks| <= 1 && Good(s) && ChannelBound(s)
  {
    ReachesLive(es, s);
  }

  lemma SilentIsLost(es: seq<Event>, s: State, i: nat)
    requires Legal(INIT, es) && s == Final(INIT, es) && s.open && !s.d.flushing
    requires i < |s.fate| && i < |s.offered| && Silent(s, i) && Noticeless(s)
    ensures LosesInSilence(es, i)
  {
    LostInSilenceExactly(es, s, i);
  }

  lemma DrainAfter(es: seq<Event>, s: State, i: nat) returns (done: seq<Event>)
    requires Legal(INIT, es) && s == Final(INIT, es) && s.open && !s.d.resync
    requires i < |s.fate| == |s.offered| && Silent(s, i) && Noticeless(s)
    ensures LosesInSilence(done, i)
  {
    Sizes(es, s);
    var more := DrainsSilently(s, i);
    RunsConcatenate(INIT, es, more);
    done := es + more;
    SilentIsLost(done, Final(INIT, done), i);
  }

  lemma Appended(s: State, k: Kind)
    requires BranchOf(s.d.queue, k) == Append
    ensures Deferred(s, k).fate == s.fate + [Waiting] && Deferred(s, k).offered == s.offered + [k]
  {
  }

  lemma SnapshotTakes(s: State, i: nat)
    requires i < |s.fate| == |s.offered| && s.fate[i] == Waiting && s.offered[i] == AttachmentStaged
    ensures var t := Deferred(s, Snapshot); i < |t.fate| == |t.offered| && !t.d.resync && Silent(t, i)
  {
  }

  /** An update taken by a Snapshot that does not carry it: an attachment is deferred, then a
      Snapshot, and the receiver never hears of the attachment. */
  lemma ASnapshotLosesAnAttachment()
    ensures exists es :: LosesInSilence(es, 0)
  {
    var es := Fill(UPDATE_CAPACITY);
    NoticelessFilled(UPDATE_CAPACITY);
    NoticelessDeferred(Final(INIT, es), AttachmentStaged);
    DeferAfter(es, AttachmentStaged);
    Appended(Final(INIT, es), AttachmentStaged);
    es := es + Offers(AttachmentStaged);
    var s := Final(INIT, es);
    DeferAfter(es, Snapshot);
    NoticelessDeferred(s, Snapshot);
    SnapshotTakes(s, 0);
    es := es + Offers(Snapshot);
    var done := DrainAfter(es, Final(INIT, es), 0);
  }

  lemma RefusedWhenFull(s: State)
    requires |s.d.queue| >= DEFERRED_CRITICAL_CAPACITY && AllPriority(s.d.queue)
    ensures var t := Deferred(s, AttachmentStaged);
            && t.fate == s.fate + [Dropped(|s.fate|, s.emitted, |s.sent|)]
            && t.offered == s.offered + [AttachmentStaged]
            && t.emitted == s.emitted
  {
  }

  lemma SnapshotClearsTheFlag(s: State, i: nat)
    requires i < |s.fate| == |s.offered| && s.fate[i] != Waiting
    ensures var t := Deferred(s, Snapshot);
            && i < |t.fate| == |t.offered| && t.fate[i] == s.fate[i] && t.offered[i] == s.offered[i]
            && t.emitted == s.emitted && !t.d.resync
  {
  }

  lemma SnapshotSilencesTheDrop(s: State, s1: State, s2: State)
    requires |s.d.queue| >= DEFERRED_CRITICAL_CAPACITY && AllPriority(s.d.queue) && |s.fate| == |s.offered|
    requires s1 == Deferred(s, AttachmentStaged) && s2 == Deferred(s1, Snapshot)
    ensures |s.fate| < |s2.fate| == |s2.offered| && !s2.d.resync && Silent(s2, |s.fate|)
  {
    RefusedWhenFull(s);
    SnapshotClearsTheFlag(s1, |s.fate|);
  }

  /** A drop whose notice a Snapshot cancels without carrying it: the queue is full of results,
      an attachment is refused and a resync flagged, and then a Snapshot clears the flag. */
  lemma ASnapshotCancelsTheNotice()
    ensures exists es, i :: LosesInSilence(es, i)
  {
    var es := StalledResults(DEFERRED_CRITICAL_CAPACITY);
    var s := Final(INIT, es);
    Sizes(es, s);
    DeferAfter(es, AttachmentStaged);
    es := es + Offers(AttachmentStaged);
    var s1 := Final(INIT, es);
    NoticelessDeferred(s, AttachmentStaged);
    NoticelessDeferred(s1, Snapshot);
    DeferAfter(es, Snapshot);
    es := es + Offers(Snapshot);
    SnapshotSilencesTheDrop(s, s1, Final(INIT, es));
    var done := DrainAfter(es, Final(INIT, es), |s.fate|);
  }
}
