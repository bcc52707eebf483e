/** The bounded channel as publishers meet it, and what becomes of the deferred updates once
    its receiver is gone. */
module DeferredChannel {
  import opened DeferredQueue
  import opened DeferredRuns

  // ------------------------------------------------------------- what a publisher is told

  lemma {:induction false} ChannelHolds(s: State, es: seq<Event>)
    requires s.received <= |s.sent| <= s.received + 256 && Legal(s, es)
    ensures Final(s, es).received <= |Final(s, es).sent| <= Final(s, es).received + 256
    decreases |es|
  {
    if es != [] {
      ChannelHolds(Apply(s, es[0]), es[1..]);
    }
  }

  /** In every run the channel holds at most 256 updates.  While its receiver is there an update
      can be sent exactly while it holds fewer, and can be turned away as full exactly when it
      holds 256 or the flusher's send waits for a place; a critical one that is turned away is
      deferred.  Once the receiver is gone, neither: a critical update then fails. */
  lemma PublishingExactly(es: seq<Event>, s: State, kind: Kind)
    requires Legal(INIT, es) && s == Final(INIT, es)
    ensures var n, waits := |s.sent| - s.received, |s.tasks| == 1 && s.tasks[0].Sending?;
            && 0 <= n <= 256
            && (Enabled(s, PublishSent(kind)) <==> s.open && n < 256)
            && (Enabled(s, PublishSkipped) <==> s.open && (n == 256 || waits))
            && (kind in s.retrying ==>
                  && (Enabled(s, CriticalSent(kind)) <==> s.open && n < 256)
                  && (Enabled(s, CriticalFull(kind)) <==> s.open && (n == 256 || waits))
                  && (Enabled(s, CriticalClosed(kind)) <==> !s.open))
  {
    ChannelHolds(INIT, es);
    ExactlyOneFlusher(es);
    assert (exists t :: 0 <= t < |s.tasks| && s.tasks[t].Sending?) <==> |s.tasks| == 1 && s.tasks[0].Sending?;
  }

  lemma OneMore(s: State, es: seq<Event>)
    requires es != []
    ensures Legal(s, es) <==> Enabled(s, es[0]) && Legal(Apply(s, es[0]), es[1..])
    ensures Legal(s, es) ==> Final(s, es) == Final(Apply(s, es[0]), es[1..])
  {
  }

  lemma OneEvent(s: State, e: Event)
    ensures Legal(s, [e]) <==> Enabled(s, e)
    ensures Legal(s, [e]) ==> Final(s, [e]) == Apply(s, e)
  {
    OneMore(s, [e]);
  }

  lemma TwoEvents(s: State, a: Event, b: Event)
    ensures Legal(s, [a, b]) <==> Enabled(s, a) && Enabled(Apply(s, a), b)
    ensures Legal(s, [a, b]) ==> Final(s, [a, b]) == Apply(Apply(s, a), b)
  {
    OneMore(s, [a, b]);
    if Enabled(s, a) {
      assert [a, b][1..] == [b];
      OneEvent(Apply(s, a), b);
    }
  }

  lemma ThreeEvents(s: State, a: Event, b: Event, c: Event)
    ensures Legal(s, [a, b, c]) <==>
              Enabled(s, a) && Enabled(Apply(s, a), b) && Enabled(Apply(Apply(s, a), b), c)
    ensures Legal(s, [a, b, c]) ==> Final(s, [a, b, c]) == Apply(Apply(Apply(s, a), b), c)
  {
    OneMore(s, [a, b, c]);
    if Enabled(s, a) {
      assert [a, b, c][1..] == [b, c];
      TwoEvents(Apply(s, a), b, c);
    }
  }

  lemma CriticalSends(s: State, kind: Kind)
    requires Legal(s, [Critical(kind), CriticalSent(kind)])
    ensures Final(s, [Critical(kind), CriticalSent(kind)])
            == s.(sent := s.sent + [Update(kind, Direct(|s.offered|))])
  {
    TwoEvents(s, Critical(kind), CriticalSent(kind));
    assert (s.retrying + multiset{kind}) - multiset{kind} == s.retrying;
  }

  lemma CriticalFails(s: State, kind: Kind)
    requires Legal(s, [Critical(kind), CriticalClosed(kind)])
    ensures Final(s, [Critical(kind), CriticalClosed(kind)]) == s
  {
    TwoEvents(s, Critical(kind), CriticalClosed(kind));
    assert (s.retrying + multiset{kind}) - multiset{kind} == s.retrying;
  }

  lemma CriticalHands(s: State, kind: Kind)
    requires Enabled(Apply(s, Critical(kind)), CriticalFull(kind))
    ensures Apply(Apply(s, Critical(kind)), CriticalFull(kind)) == s.(deferring := s.deferring + multiset{kind})
  {
    assert (s.retrying + multiset{kind}) - multiset{kind} == s.retrying;
  }

  lemma DefersOne(s: State, kind: Kind)
    ensures var t := AfterDeferral(s.(deferring := s.deferring + multiset{kind}), kind);
            && t.retrying == s.retrying && t.deferring == s.deferring && t.sent == s.sent
            && t.offered == s.offered + [kind]
            && t.d == Queued(s.d, Update(kind, Offered(|s.offered|))).(flushing := true)
            && t.tasks == (if s.d.flushing then s.tasks else s.tasks + [Starting])
  {
    assert (s.deferring + multiset{kind}) - multiset{kind} == s.deferring;
  }

  /** The three ends of a critical update: it is sent, or deferred with a flusher at work, or it
      fails; in the last two the channel accepts nothing, and in no case is anything left over. */
  lemma CriticalEndsExactly(s: State, kind: Kind)
    ensures var send := [Critical(kind), CriticalSent(kind)];
            Legal(s, send) ==> Final(s, send) == s.(sent := s.sent + [Update(kind, Direct(|s.offered|))])
    ensures var fail := [Critical(kind), CriticalClosed(kind)]; Legal(s, fail) ==> Final(s, fail) == s
    ensures var defer := [Critical(kind), CriticalFull(kind), Deferral(kind)];
            Legal(s, defer) ==>
              && Final(s, defer).retrying == s.retrying && Final(s, defer).deferring == s.deferring
              && Final(s, defer).sent == s.sent && Final(s, defer).offered == s.offered + [kind]
              && Final(s, defer).d == Queued(s.d, Update(kind, Offered(|s.offered|))).(flushing := true)
              && Final(s, defer).tasks == (if s.d.flushing then s.tasks else s.tasks + [Starting])
  {
    if Legal(s, [Critical(kind), CriticalSent(kind)]) {
      CriticalSends(s, kind);
    }
    if Legal(s, [Critical(kind), CriticalClosed(kind)]) {
      CriticalFails(s, kind);
    }
    ThreeEvents(s, Critical(kind), CriticalFull(kind), Deferral(kind));
    if Legal(s, [Critical(kind), CriticalFull(kind), Deferral(kind)]) {
      CriticalHands(s, kind);
      DefersOne(s, kind);
    }
  }

  // ------------------------------------------------------------- once the receiver is gone

  lemma {:induction false} StaysClosed(s: State, es: seq<Event>)
    requires !s.open && Legal(s, es)
    ensures !Final(s, es).open && Final(s, es).sent == s.sent
    decreases |es|
  {
    if es != [] {
      StaysClosed(Apply(s, es[0]), es[1..]);
    }
  }

  /** After the receiver closes the channel, it accepts nothing more in any run. */
  lemma NothingIsSentOnceClosed(s: State, es: seq<Event>)
    requires s.open && Legal(s, [Close] + es)
    ensures !Final(s, [Close] + es).open && Final(s, [Close] + es).sent == s.sent
  {
    assert ([Close] + es)[1..] == es;
    StaysClosed(Apply(s, Close), es);
  }

  predicate Unsettled(f: Fate) {
    f == Waiting || f == Held
  }

  /** Every update still waiting or in the flusher's hands is given up; the others stay as they are. */
  predicate GivenUp(before: seq<Fate>, after: seq<Fate>) {
    && |after| == |before|
    && forall i :: 0 <= i < |before| ==> after[i] == if Unsettled(before[i]) then Detached else before[i]
  }

  /** One step on: what is unsettled may be given up, nothing else changes. */
  predicate NoneSettled(before: seq<Fate>, after: seq<Fate>) {
    && |after| == |before|
    && forall i :: 0 <= i < |before| ==>
         if Unsettled(before[i]) then Unsettled(after[i]) || after[i] == Detached else after[i] == before[i]
  }

  /** What the flusher does next when nobody receives. */
  function FlusherStep(s: State): Event
    requires |s.tasks| == 1
  {
    match s.tasks[0]
    case Starting => Begin(0)
    case AtLoop => Take(0)
    case Sending(_) => SendFailed(0)
    case Rejected => CleanUp(0)
  }

  function StepsToEnd(s: State): nat {
    if s.tasks == [] then 0
    else
      match s.tasks[0]
      case Rejected => 1
      case Sending(_) => 2
      case AtLoop => 3
      case Starting => 4
  }

  lemma FlusherFates(s: State)
    requires Sound(s) && |s.tasks| == 1 && Enabled(s, FlusherStep(s))
    ensures NoneSettled(s.fate, Apply(s, FlusherStep(s)).fate)
  {
    match s.tasks[0]
    case Starting =>
    case AtLoop =>
      if s.d.queue != [] {
        assert Genuine(s, s.d.queue[0], Waiting);
      }
    case Sending(item) => assert Genuine(s, item, Held);
    case Rejected =>
      forall i | 0 <= i < |s.fate| ensures s.fate[i] != Held {
        assert s.fate[i] == Held ==> InFlight(s, i);
      }
  }

  lemma FlusherSteps(s: State)
    requires Sound(s) && !s.open && |s.tasks| == 1
    ensures Enabled(s, FlusherStep(s))
    ensures var t := Apply(s, FlusherStep(s));
            && Sound(t) && !t.open && |t.tasks| <= 1 && StepsToEnd(t) < StepsToEnd(s)
            && NoneSettled(s.fate, t.fate) && t.offered == s.offered && t.sent == s.sent
  {
    SoundStep(s, FlusherStep(s));
    FlusherFates(s);
  }

  lemma SettledAtEnd(s: State)
    requires Sound(s) && s.tasks == []
    ensures s.d == Delivery([], false, false) && forall i :: 0 <= i < |s.fate| ==> !Unsettled(s.fate[i])
  {
    forall i | 0 <= i < |s.fate| ensures !Unsettled(s.fate[i]) {
      assert s.fate[i] == Waiting ==> InQueue(s, i);
      assert s.fate[i] == Held ==> InFlight(s, i);
    }
  }

  /** Once the receiver is gone the flusher ends by itself in at most four steps: it leaves no
      task, no flag and an empty queue, and every update not yet delivered is given up. */
  lemma {:induction false} ClosedFlusherEnds(s: State) returns (es: seq<Event>)
    requires Sound(s) && !s.open
    ensures Legal(s, es) && |es| <= 4
    ensures var t := Final(s, es);
            && t.tasks == [] && t.d == Delivery([], false, false) && t.sent == s.sent && t.offered == s.offered
            && GivenUp(s.fate, t.fate)
    ensures |es| <= StepsToEnd(s)
    decreases StepsToEnd(s)
  {
    if s.tasks == [] {
      SettledAtEnd(s);
      es := [];
    } else {
      FlusherSteps(s);
      var rest := ClosedFlusherEnds(Apply(s, FlusherStep(s)));
      es := [FlusherStep(s)] + rest;
      assert es[1..] == rest;
    }
  }

  /** A failed send and its clean-up: from a flusher waiting to send, the very next two steps
      empty the queue, drop both flags and end the flusher. */
  lemma FailedSendAbandons(s: State)
    requires Sound(s) && !s.open && |s.tasks| == 1 && s.tasks[0].Sending?
    ensures Legal(s, [SendFailed(0), CleanUp(0)])
    ensures var t := Final(s, [SendFailed(0), CleanUp(0)]);
            && t == s.(tasks := [], d := Delivery([], false, false), fate := t.fate) && GivenUp(s.fate, t.fate)
  {
    FlusherSteps(s);
    var t := Apply(s, SendFailed(0));
    FlusherSteps(t);
    TwoEvents(s, SendFailed(0), CleanUp(0));
    SettledAtEnd(Apply(t, CleanUp(0)));
  }
}
