/** In which order the receiver gets what was offered and what was sent directly: a publish
    tries the channel first, so it can overtake what is deferred, exactly when something is. */
module DeferredOrder {
  import opened DeferredQueue
  import opened DeferredRuns
  import opened DeferredLosses

  // ---------------------------------------------------------------- runs

  lemma {:induction false} RunsConcatenate(s: State, es: seq<Event>, more: seq<Event>)
    requires Legal(s, es) && Legal(Final(s, es), more)
    ensures Legal(s, es + more) && Final(s, es + more) == Final(Final(s, es), more)
    decreases |es|
  {
    if es == [] {
      assert es + more == more;
    } else {
      assert (es + more)[0] == es[0] && (es + more)[1..] == es[1..] + more;
      RunsConcatenate(Apply(s, es[0]), es[1..], more);
    }
  }

  lemma OneEvent(s: State, e: Event)
    requires Enabled(s, e)
    ensures Legal(s, [e]) && Final(s, [e]) == Apply(s, e)
  {
    var es, t := [e], Apply(s, e);
    assert es[0] == e && es[1..] == [];
    assert Legal(t, []) && Final(t, []) == t;
  }

  /** A run and one more event. */
  lemma RunThen(s: State, es: seq<Event>, e: Event)
    requires Legal(s, es) && Enabled(Final(s, es), e)
    ensures Legal(s, es + [e]) && Final(s, es + [e]) == Apply(Final(s, es), e)
  {
    OneEvent(Final(s, es), e);
    RunsConcatenate(s, es, [e]);
  }

  /** The channel never holds more than its capacity. */
  predicate ChannelBound(s: State) {
    |s.sent| <= s.received + UPDATE_CAPACITY
  }

  lemma ChannelBoundStep(s: State, e: Event)
    requires ChannelBound(s) && Enabled(s, e)
    ensures ChannelBound(Apply(s, e))
  {
  }

  lemma SentGrowsStep(s: State, e: Event)
    requires Enabled(s, e)
    ensures s.sent <= Apply(s, e).sent
  {
  }

  lemma {:induction false} SentGrows(s: State, es: seq<Event>)
    requires Legal(s, es)
    ensures s.sent <= Final(s, es).sent
    decreases |es|
  {
    if es != [] {
      SentGrowsStep(s, es[0]);
      SentGrows(Apply(s, es[0]), es[1..]);
    }
  }

  lemma {:induction false} BoundedRun(s: State, es: seq<Event>)
    requires ChannelBound(s) && Legal(s, es)
    ensures ChannelBound(Final(s, es))
    decreases |es|
  {
    if es != [] {
      ChannelBoundStep(s, es[0]);
      BoundedRun(Apply(s, es[0]), es[1..]);
    }
  }

  // ---------------------------------------------------------------- overtaking

  /** The flusher is sending a deferred update. */
  predicate HoldsOffer(s: State) {
    |s.tasks| == 1 && s.tasks[0].Sending? && s.tasks[0].item.body.Offered?
  }

  predicate HasPending(s: State) {
    s.d.queue != [] || HoldsOffer(s)
  }

  predicate IsDirect(e: Event) {
    e.PublishSent? || e.CriticalSent?
  }

  /** Some continuation of the direct send `e` delivers, after it, an update offered before it. */
  ghost predicate Overtakes(s: State, e: Event)
    requires Enabled(s, e)
  {
    exists es :: Legal(Apply(s, e), es) && Overtaken(s, Final(Apply(s, e), es))
  }

  /** In `t` an offer made before `s` stands behind the position the channel had in `s`. */
  ghost predicate Overtaken(s: State, t: State) {
    exists q :: |s.sent| < q < |t.sent| && t.sent[q].body.Offered? && t.sent[q].body.index < |s.offered|
  }

  /** Some continuation delivers an update already offered. */
  ghost predicate Deliverable(s: State) {
    exists es :: Legal(s, es) && Delivers(s, Final(s, es))
  }

  ghost predicate Delivers(s: State, t: State) {
    exists q :: |s.sent| <= q < |t.sent| && t.sent[q].body.Offered? && t.sent[q].body.index < |s.offered|
  }

  lemma DeliverableLater(s: State, e: Event)
    requires Enabled(s, e) && Deliverable(Apply(s, e)) && |Apply(s, e).offered| == |s.offered|
    ensures Deliverable(s)
  {
    var t := Apply(s, e);
    var es :| Legal(t, es) && Delivers(t, Final(t, es));
    SentGrowsStep(s, e);
    OneEvent(s, e);
    RunsConcatenate(s, [e], es);
    assert Delivers(s, Final(s, [e] + es));
  }

  ghost predicate Live(s: State) {
    Good(s) && ChannelBound(s) && s.open
  }

  lemma LiveStep(s: State, e: Event)
    requires Live(s) && Enabled(s, e) && e != Close
    ensures Live(Apply(s, e))
  {
    GoodStep(s, e);
    ChannelBoundStep(s, e);
  }

  lemma SendDelivers(s: State)
    requires Live(s) && HoldsOffer(s) && HasRoom(s)
    ensures Deliverable(s)
  {
    var t := Apply(s, SendOk(0));
    assert Genuine(s, s.tasks[0].item, Held);
    OneEvent(s, SendOk(0));
    assert t.sent[|s.sent|] == s.tasks[0].item;
    assert Delivers(s, Final(s, [SendOk(0)]));
  }

  lemma HeldDelivers(s: State)
    requires Live(s) && HoldsOffer(s)
    ensures Deliverable(s)
  {
    if HasRoom(s) {
      SendDelivers(s);
    } else {
      LiveStep(s, Receive);
      SendDelivers(Apply(s, Receive));
      DeliverableLater(s, Receive);
    }
  }

  lemma LoopDelivers(s: State)
    requires Live(s) && s.d.queue != [] && |s.tasks| == 1 && s.tasks[0] == AtLoop
    ensures Deliverable(s)
  {
    assert s.d.queue[0].body.Offered?;
    LiveStep(s, Take(0));
    HeldDelivers(Apply(s, Take(0)));
    DeliverableLater(s, Take(0));
  }

  lemma ResyncSentDelivers(s: State)
    requires Live(s) && s.d.queue != [] && |s.tasks| == 1 && s.tasks[0].Sending? && HasRoom(s)
    ensures Deliverable(s)
  {
    LiveStep(s, SendOk(0));
    LoopDelivers(Apply(s, SendOk(0)));
    DeliverableLater(s, SendOk(0));
  }

  lemma PendingDelivers(s: State)
    requires Live(s) && HasPending(s)
    ensures Deliverable(s)
  {
    if HoldsOffer(s) {
      HeldDelivers(s);
    } else if s.tasks[0] == Starting {
      LiveStep(s, Begin(0));
      LoopDelivers(Apply(s, Begin(0)));
      DeliverableLater(s, Begin(0));
    } else if s.tasks[0] == AtLoop {
      LoopDelivers(s);
    } else if HasRoom(s) {
      ResyncSentDelivers(s);
    } else {
      LiveStep(s, Receive);
      ResyncSentDelivers(Apply(s, Receive));
      DeliverableLater(s, Receive);
    }
  }

  /** With nothing pending every offer is settled, and what is settled is never sent again. */
  lemma NothingLeftToDeliver(s: State, es: seq<Event>)
    requires Good(s) && !HasPending(s) && Legal(s, es)
    ensures !Delivers(s, Final(s, es))
  {
    var t := Final(s, es);
    GoodRun(s, es);
    SentGrows(s, es);
    forall q | |s.sent| <= q < |t.sent| && t.sent[q].body.Offered? ensures t.sent[q].body.index >= |s.offered| {
      NotSentAgain(s, es, q);
    }
  }

  lemma SentEarlier(s: State, es: seq<Event>, i: nat)
    requires Good(s) && !HasPending(s) && Legal(s, es) && Good(Final(s, es)) && s.sent <= Final(s, es).sent
    requires i < |s.fate| && i < |Final(s, es).fate| && Final(s, es).fate[i] == Delivered
    ensures exists p :: 0 <= p < |s.sent| && Final(s, es).sent[p].body == Offered(i)
  {
    assert s.fate[i] == Waiting ==> InQueue(s, i);
    assert s.fate[i] == Held ==> InFlight(s, i);
    SettledForGood(s, es, i);
    assert InChannelHistory(s, i);
    var p :| 0 <= p < |s.sent| && s.sent[p].body == Offered(i);
    assert Final(s, es).sent[p] == s.sent[p];
  }

  lemma NotSentAgain(s: State, es: seq<Event>, q: nat)
    requires Good(s) && !HasPending(s) && Legal(s, es) && Good(Final(s, es)) && s.sent <= Final(s, es).sent
    requires |s.sent| <= q < |Final(s, es).sent| && Final(s, es).sent[q].body.Offered?
    ensures Final(s, es).sent[q].body.index >= |s.offered|
  {
    var t := Final(s, es);
    assert Genuine(t, t.sent[q], Delivered);
    if t.sent[q].body.index < |s.offered| {
      SentEarlier(s, es, t.sent[q].body.index);
    }
  }

  lemma OvertakesWhenPending(s: State, e: Event)
    requires Live(s) && Enabled(s, e) && IsDirect(e) && HasPending(s)
    ensures Overtakes(s, e)
  {
    var t := Apply(s, e);
    LiveStep(s, e);
    PendingDelivers(t);
    var es :| Legal(t, es) && Delivers(t, Final(t, es));
    assert Overtaken(s, Final(t, es));
  }

  lemma NoOvertakingWhenNothingPending(s: State, e: Event)
    requires Live(s) && Enabled(s, e) && IsDirect(e) && !HasPending(s)
    ensures !Overtakes(s, e)
  {
    var t := Apply(s, e);
    LiveStep(s, e);
    forall es | Legal(t, es) ensures !Overtaken(s, Final(t, es)) {
      NothingLeftToDeliver(t, es);
    }
  }

  /** The exact condition for overtaking.  In every reachable state a direct send can come to
      stand before an update that was offered earlier if and only if the queue is not empty or
      the flusher holds an offered update; while no flusher runs it never can. */
  lemma DirectOvertakesExactlyThePending(run: seq<Event>, s: State, e: Event)
    requires Legal(INIT, run) && s == Final(INIT, run) && Enabled(s, e) && IsDirect(e)
    ensures Overtakes(s, e) <==> HasPending(s)
    ensures !s.d.flushing ==> !Overtakes(s, e)
  {
    ReachesLive(run, s);
    if HasPending(s) {
      OvertakesWhenPending(s, e);
    } else {
      NoOvertakingWhenNothingPending(s, e);
    }
  }

  lemma ReachesLive(run: seq<Event>, s: State)
    requires Legal(INIT, run) && s == Final(INIT, run)
    ensures Good(s) && ChannelBound(s)
  {
    ReachableIsGood(run, s);
    BoundedRun(INIT, run);
  }

  // ---------------------------------------------------------------- the order of whole runs

  /** How x may stand before y, where each offer has a place.  Deferred updates come in the order
      of their places; a direct update comes after what was sent or delivered before it, and, if
      `fifo`, before what has the place of a later offer. */
  predicate MayPrecede(place: seq<nat>, fifo: bool, x: Item, y: Item) {
    match (x.body, y.body)
    case (Offered(i), Offered(j)) => i < |place| && j < |place| && place[i] < place[j]
    case (Offered(i), Direct(n)) => i < n
    case (Direct(n), Direct(m)) => n <= m
    case (Direct(n), Offered(i)) => fifo ==> i < |place| && n <= place[i]
    case _ => true
  }

  predicate Ordered(place: seq<nat>, fifo: bool, items: seq<Item>) {
    forall p, q :: 0 <= p < q < |items| ==> MayPrecede(place, fifo, items[p], items[q])
  }

  /** Nothing in the list is stamped later than the offers that have places. */
  predicate Dated(place: seq<nat>, items: seq<Item>) {
    forall p :: 0 <= p < |items| ==>
      match items[p].body
      case Offered(i) => i < |place| && place[i] <= i
      case Direct(m) => m <= |place|
      case Synthesized(_) => true
  }

  lemma OrderedWithout(place: seq<nat>, fifo: bool, a: seq<Item>, b: seq<Item>, c: seq<Item>)
    requires Ordered(place, fifo, a + b + c)
    ensures Ordered(place, fifo, a + c)
  {
    var all, less := a + b + c, a + c;
    forall p, q | 0 <= p < q < |less| ensures MayPrecede(place, fifo, less[p], less[q]) {
      var p', q' := if p < |a| then p else p + |b|, if q < |a| then q else q + |b|;
      assert less[p] == all[p'] && less[q] == all[q'];
    }
  }

  lemma DatedWithout(place: seq<nat>, a: seq<Item>, b: seq<Item>, c: seq<Item>)
    requires Dated(place, a + b + c)
    ensures Dated(place, a + c)
  {
    var all, less := a + b + c, a + c;
    forall p | 0 <= p < |less| ensures less[p] == all[if p < |a| then p else p + |b|] {
    }
  }

  /** One more place changes nothing. */
  lemma OrderedLonger(place: seq<nat>, fifo: bool, items: seq<Item>, x: nat)
    requires Ordered(place, fifo, items) && Dated(place, items)
    ensures Ordered(place + [x], fifo, items) && Dated(place + [x], items)
  {
    forall p, q | 0 <= p < q < |items| ensures MayPrecede(place + [x], fifo, items[p], items[q]) {
      assert MayPrecede(place, fifo, items[p], items[q]);
    }
  }

  /** The next offer joins the end. */
  lemma OrderedAppend(place: seq<nat>, fifo: bool, items: seq<Item>, k: Kind)
    requires Ordered(place, fifo, items) && Dated(place, items)
    ensures var (place', items') := (place + [|place|], items + [Update(k, Offered(|place|))]);
            Ordered(place', fifo, items') && Dated(place', items')
  {
    OrderedLonger(place, fifo, items, |place|);
  }

  /** The next offer takes the place of one it replaces. */
  lemma OrderedReplace(place: seq<nat>, fifo: bool, items: seq<Item>, p: nat, m: nat, k: Kind)
    requires Ordered(place, fifo, items) && Dated(place, items)
    requires p < |items| && items[p].body == Offered(m) && m < |place|
    requires forall q :: p < q < |items| ==> !items[q].body.Direct?
    ensures var (place', items') := (place + [place[m]], items[p := Update(k, Offered(|place|))]);
            Ordered(place', fifo, items') && Dated(place', items')
  {
    var place', items' := place + [place[m]], items[p := Update(k, Offered(|place|))];
    OrderedLonger(place, fifo, items, place[m]);
    forall q, r | 0 <= q < r < |items'| ensures MayPrecede(place', fifo, items'[q], items'[r]) {
      assert MayPrecede(place', fifo, items[q], items[r]);
    }
  }

  lemma OrderedWithoutOne(place: seq<nat>, fifo: bool, head: seq<Item>, q: seq<Item>)
    requires q != [] && Ordered(place, fifo, head + q) && Dated(place, head + q)
    ensures Ordered(place, fifo, head + q[1..]) && Dated(place, head + q[1..])
  {
    assert head + q == head + [q[0]] + q[1..];
    OrderedWithout(place, fifo, head, [q[0]], q[1..]);
    DatedWithout(place, head, [q[0]], q[1..]);
  }

  lemma {:induction false} OrderedPriorities(place: seq<nat>, fifo: bool, head: seq<Item>, q: seq<Item>)
    requires Ordered(place, fifo, head + q) && Dated(place, head + q)
    ensures Ordered(place, fifo, head + Priorities(q)) && Dated(place, head + Priorities(q))
    decreases |q|
  {
    if q != [] {
      FirstRegrouped(head, q);
      if IsPriority(q[0].kind) {
        OrderedPriorities(place, fifo, head + [q[0]], q[1..]);
      } else {
        OrderedWithoutOne(place, fifo, head, q);
        OrderedPriorities(place, fifo, head, q[1..]);
      }
    }
  }

  lemma FirstRegrouped(head: seq<Item>, q: seq<Item>)
    requires q != []
    ensures head + [q[0]] + q[1..] == head + q
    ensures head + Priorities(q) ==
            if IsPriority(q[0].kind) then head + [q[0]] + Priorities(q[1..]) else head + Priorities(q[1..])
  {
    assert [q[0]] + q[1..] == q;
    Regrouped(head, [q[0]], q[1..]);
    Regrouped(head, [q[0]], Priorities(q[1..]));
    if !IsPriority(q[0].kind) {
      assert Priorities(q) == [] + Priorities(q[1..]) == Priorities(q[1..]);
    }
  }

  lemma Regrouped(a: seq<Item>, b: seq<Item>, c: seq<Item>)
    ensures a + b + c == a + (b + c)
  {
  }

  predicate Sorted(place: seq<nat>, fifo: bool, s: State) {
    |place| == |s.offered| && Ordered(place, fifo, Pipeline(s)) && Dated(place, Pipeline(s))
  }

  predicate Arranged(place: seq<nat>, fifo: bool, items: seq<Item>) {
    Ordered(place, fifo, items) && Dated(place, items)
  }

  lemma EvictedStaysSorted(place: seq<nat>, fifo: bool, head: seq<Item>, q: seq<Item>, p: nat)
    requires p < |q| && Arranged(place, fifo, head + q)
    ensures Arranged(place, fifo, head + (q[..p] + q[p + 1..]))
  {
    assert head + q == head + q[..p] + [q[p]] + q[p + 1..];
    OrderedWithout(place, fifo, head + q[..p], [q[p]], q[p + 1..]);
    DatedWithout(place, head + q[..p], [q[p]], q[p + 1..]);
    assert head + (q[..p] + q[p + 1..]) == head + q[..p] + q[p + 1..];
  }

  lemma SupersededStaysSorted(place: seq<nat>, fifo: bool, head: seq<Item>, q: seq<Item>, k: Kind)
    requires Arranged(place, fifo, head + q)
    ensures Arranged(place + [|place|], fifo, head + (Priorities(q) + [Update(k, Offered(|place|))]))
  {
    OrderedPriorities(place, fifo, head, q);
    OrderedAppend(place, fifo, head + Priorities(q), k);
    Regrouped(head, Priorities(q), [Update(k, Offered(|place|))]);
  }

  lemma CoalescedStaysSorted(place: seq<nat>, fifo: bool, head: seq<Item>, q: seq<Item>, p: nat, m: nat, k: Kind)
    requires Arranged(place, fifo, head + q) && p < |q| && q[p].body == Offered(m) && m < |place|
    requires forall r :: 0 <= r < |q| ==> !q[r].body.Direct?
    ensures Arranged(place + [place[m]], fifo, head + q[p := Update(k, Offered(|place|))])
  {
    assert forall r :: |head| + p < r < |head + q| ==> (head + q)[r] == q[r - |head|];
    OrderedReplace(place, fifo, head + q, |head| + p, m, k);
    assert head + q[p := Update(k, Offered(|place|))] == (head + q)[|head| + p := Update(k, Offered(|place|))];
  }

  lemma AppendedStaysSorted(place: seq<nat>, fifo: bool, head: seq<Item>, q: seq<Item>, k: Kind)
    requires Arranged(place, fifo, head + q)
    ensures Arranged(place + [|place|], fifo, head + (q + [Update(k, Offered(|place|))]))
  {
    OrderedAppend(place, fifo, head + q, k);
    Regrouped(head, q, [Update(k, Offered(|place|))]);
  }

  /** The place of the next offer: that of the one it replaces, or the last. */
  function PlaceOf(place: seq<nat>, q: seq<Item>, k: Kind): nat {
    match BranchOf(q, k)
    case Coalesce(p) =>
      if q[p].body.Offered? && q[p].body.index < |place| then place[q[p].body.index] else |place|
    case _ => |place|
  }

  /** Whatever branch an offer takes. */
  lemma QueuedStaysSorted(place: seq<nat>, fifo: bool, head: seq<Item>, d: Delivery, k: Kind)
    requires Arranged(place, fifo, head + d.queue)
    requires forall r :: 0 <= r < |d.queue| ==> d.queue[r].body.Offered? && d.queue[r].body.index < |place|
    ensures Arranged(place + [PlaceOf(place, d.queue, k)], fifo, head + Queued(d, Update(k, Offered(|place|))).queue)
  {
    match BranchOf(d.queue, k)
    case Supersede => SupersededStaysSorted(place, fifo, head, d.queue, k);
    case Coalesce(p) => CoalescedStaysSorted(place, fifo, head, d.queue, p, d.queue[p].body.index, k);
    case Append => AppendedStaysSorted(place, fifo, head, d.queue, k);
    case Evict(p) =>
      EvictedStaysSorted(place, fifo, head, d.queue, p);
      AppendedStaysSorted(place, fifo, head, d.queue[..p] + d.queue[p + 1..], k);
    case Refuse => OrderedLonger(place, fifo, head + d.queue, |place|);
  }

  lemma QueueIndices(s: State)
    requires Ledger(s)
    ensures forall r :: 0 <= r < |s.d.queue| ==>
              s.d.queue[r].body.Offered? && s.d.queue[r].body.index < |s.offered|
  {
    forall r | 0 <= r < |s.d.queue| ensures s.d.queue[r].body.Offered? && s.d.queue[r].body.index < |s.offered| {
      assert Genuine(s, s.d.queue[r], Waiting);
    }
  }

  lemma SortedByOffer(place: seq<nat>, fifo: bool, s: State, k: Kind)
    requires OneFlusher(s) && Ledger(s) && Sorted(place, fifo, s)
    ensures Sorted(place + [PlaceOf(place, s.d.queue, k)], fifo, AfterDeferral(s, k))
  {
    var before, s' := s.sent + HeldItems(s), AfterDeferral(s, k);
    assert HeldItems(s') == HeldItems(s);
    QueueIndices(s);
    QueuedStaysSorted(place, fifo, before, s.d, k);
    assert Pipeline(s') == before + s'.d.queue;
  }

  function Unsent(s: State): seq<Item> {
    HeldItems(s) + s.d.queue
  }

  lemma PipelineByDirect(s: State, e: Event)
    requires Enabled(s, e) && IsDirect(e)
    ensures Pipeline(s) == s.sent + Unsent(s) && Apply(s, e).offered == s.offered
    ensures Pipeline(Apply(s, e)) == s.sent + [Update(e.kind, Direct(|s.offered|))] + Unsent(s)
  {
  }

  lemma UnsentNeverDirect(s: State)
    requires OneFlusher(s) && Ledger(s)
    ensures forall p :: 0 <= p < |Unsent(s)| ==> !Unsent(s)[p].body.Direct?
    ensures !HasPending(s) ==> forall p :: 0 <= p < |Unsent(s)| ==> !Unsent(s)[p].body.Offered?
  {
  }

  /** A direct update stands behind everything sent; if something is pending it also stands
      before that. */
  lemma SortedByDirect(place: seq<nat>, fifo: bool, s: State, e: Event)
    requires OneFlusher(s) && Ledger(s) && Sorted(place, fifo, s) && Enabled(s, e) && IsDirect(e)
    requires fifo ==> !HasPending(s)
    ensures Sorted(place, fifo, Apply(s, e))
  {
    PipelineByDirect(s, e);
    UnsentNeverDirect(s);
    SortedInsert(place, fifo, s.sent, Update(e.kind, Direct(|s.offered|)), Unsent(s));
  }

  lemma SortedInsert(place: seq<nat>, fifo: bool, a: seq<Item>, d: Item, b: seq<Item>)
    requires Ordered(place, fifo, a + b) && Dated(place, a + b) && d.body == Direct(|place|)
    requires forall p :: 0 <= p < |b| ==> !b[p].body.Direct? && (fifo ==> !b[p].body.Offered?)
    ensures Ordered(place, fifo, a + [d] + b) && Dated(place, a + [d] + b)
  {
    var old_, new_ := a + b, a + [d] + b;
    forall p | 0 <= p < |new_| && p != |a| ensures new_[p] == old_[if p < |a| then p else p - 1] {
    }
    assert new_[|a|] == d;
    forall p, q | 0 <= p < q < |new_| ensures MayPrecede(place, fifo, new_[p], new_[q]) {
      if p == |a| {
        assert new_[q] == b[q - |a| - 1];
      } else if q == |a| {
        assert new_[p] == old_[p];
      } else {
        assert MayPrecede(place, fifo, old_[if p < |a| then p else p - 1], old_[if q < |a| then q else q - 1]);
      }
    }
  }

  lemma OrderedNotice(place: seq<nat>, fifo: bool, items: seq<Item>, notice: Item)
    requires Ordered(place, fifo, items) && Dated(place, items) && notice.body.Synthesized?
    ensures Ordered(place, fifo, items + [notice]) && Dated(place, items + [notice])
  {
  }

  lemma PipelineByTake(s: State)
    requires OneFlusher(s) && Enabled(s, Take(0))
    ensures Pipeline(AfterTake(s, 0)) == if s.d.queue == [] && s.d.resync
            then Pipeline(s) + [Update(ResyncRequired, Synthesized(s.emitted))] else Pipeline(s)
  {
    var s' := AfterTake(s, 0);
    if s.d.queue == [] && !s.d.resync {
      assert s'.tasks == [];
    }
  }

  lemma SortedByTake(place: seq<nat>, fifo: bool, s: State)
    requires OneFlusher(s) && Sorted(place, fifo, s) && Enabled(s, Take(0))
    ensures Sorted(place, fifo, AfterTake(s, 0))
  {
    PipelineByTake(s);
    OrderedNotice(place, fifo, Pipeline(s), Update(ResyncRequired, Synthesized(s.emitted)));
  }

  lemma SortedByFailure(place: seq<nat>, fifo: bool, s: State, e: Event)
    requires OneFlusher(s) && Sorted(place, fifo, s) && Enabled(s, e) && (e.SendFailed? || e.CleanUp?)
    ensures Sorted(place, fifo, Apply(s, e))
  {
    if e.SendFailed? {
      OrderedWithout(place, fifo, s.sent, HeldItems(s), s.d.queue);
      DatedWithout(place, s.sent, HeldItems(s), s.d.queue);
      assert Pipeline(Apply(s, e)) == s.sent + s.d.queue;
    } else {
      assert Pipeline(s) == s.sent + s.d.queue + [];
      OrderedWithout(place, fifo, s.sent, s.d.queue, []);
      DatedWithout(place, s.sent, s.d.queue, []);
      assert Pipeline(Apply(s, e)) == s.sent + [];
    }
  }

  /** The places once the event has happened. */
  function PlacesAfter(place: seq<nat>, s: State, e: Event): seq<nat> {
    if e.Deferral? then place + [PlaceOf(place, s.d.queue, e.kind)] else place
  }

  lemma SortedStep(place: seq<nat>, fifo: bool, s: State, e: Event)
    requires Sound(s) && Sorted(place, fifo, s) && Enabled(s, e)
    requires fifo && IsDirect(e) ==> !HasPending(s)
    ensures Sorted(PlacesAfter(place, s, e), fifo, Apply(s, e))
  {
    if e.Deferral? {
      SortedByOffer(place, fifo, s, e.kind);
    } else if IsDirect(e) {
      SortedByDirect(place, fifo, s, e);
    } else if e.Take? {
      SortedByTake(place, fifo, s);
    } else if e.SendFailed? || e.CleanUp? {
      SortedByFailure(place, fifo, s, e);
    } else {
      SortedQuietly(place, fifo, s, e);
    }
  }

  lemma SortedQuietly(place: seq<nat>, fifo: bool, s: State, e: Event)
    requires OneFlusher(s) && Sorted(place, fifo, s) && Enabled(s, e)
    requires !e.Deferral? && !IsDirect(e) && !e.Take? && !e.SendFailed? && !e.CleanUp?
    ensures Sorted(place, fifo, Apply(s, e))
  {
    assert Pipeline(Apply(s, e)) == Pipeline(s);
  }

  /** Every direct send of the run finds nothing pending. */
  predicate SendsWhenIdle(s: State, es: seq<Event>)
    requires Legal(s, es)
    decreases |es|
  {
    es == [] || ((IsDirect(es[0]) ==> !HasPending(s)) && SendsWhenIdle(Apply(s, es[0]), es[1..]))
  }

  // ---------------------------------------------------------------- places

  /** The oldest offer whose coalescing chain ends in offer i. */
  function Oldest(s: State, i: nat, k: nat): (r: nat)
    requires k <= i < |s.fate|
    ensures k <= r <= i
    decreases i - k
  {
    if k == i || ChainEnd(s, k) == i then k else Oldest(s, i, k + 1)
  }

  /** The place of each offer: the oldest offer whose coalescing chain ends in it. */
  function Places(s: State): seq<nat> {
    seq(|s.fate|, i requires 0 <= i < |s.fate| => Oldest(s, i, 0))
  }

  /** The places kept along a run follow the coalescing: an offer has its own place or that of
      one that coalesced into it, and one that coalesced has the place of the other. */
  ghost predicate Placed(place: seq<nat>, s: State) {
    && |place| == |s.fate|
    && (forall n :: 0 <= n < |place| ==> place[n] <= n && (place[n] == n || exists m :: Inherits(place, s, m, n)))
    && forall m :: 0 <= m < |place| && s.fate[m].Coalesced? && m < s.fate[m].later < |place| ==>
         place[s.fate[m].later] == place[m]
  }

  predicate Inherits(place: seq<nat>, s: State, m: int, n: nat)
    requires n < |place| == |s.fate|
  {
    0 <= m < n && s.fate[m] == Coalesced(n) && place[m] == place[n]
  }

  lemma {:induction false} ChainKeepsPlace(place: seq<nat>, s: State, k: nat)
    requires Placed(place, s) && k < |place|
    ensures place[ChainEnd(s, k)] == place[k]
    decreases |place| - k
  {
    if s.fate[k].Coalesced? && k < s.fate[k].later < |place| {
      ChainKeepsPlace(place, s, s.fate[k].later);
    }
  }

  lemma {:induction false} PlaceStartsChain(place: seq<nat>, s: State, n: nat)
    requires Placed(place, s) && n < |place|
    ensures place[n] <= n && ChainEnd(s, place[n]) == ChainEnd(s, n)
    decreases n
  {
    if place[n] != n {
      var m :| Inherits(place, s, m, n);
      PlaceStartsChain(place, s, m);
    }
  }

  lemma NoOlderChain(place: seq<nat>, s: State, i: nat, k: nat)
    requires Placed(place, s) && i < |place| && k < place[i] <= i
    ensures ChainEnd(s, k) != i
  {
    ChainKeepsPlace(place, s, k);
    assert place[k] <= k;
  }

  /** `start` is the first of whose chain offer i is the end. */
  lemma {:induction false} OldestIsFirst(s: State, i: nat, start: nat, k: nat)
    requires k <= start <= i < |s.fate| && ChainEnd(s, start) == i
    requires forall j :: k <= j < start ==> ChainEnd(s, j) != i
    ensures Oldest(s, i, k) == start
    decreases start - k
  {
    if k < start {
      OldestIsFirst(s, i, start, k + 1);
    }
  }

  lemma OldestIsPlace(place: seq<nat>, s: State, i: nat)
    requires Placed(place, s) && i < |place| && ChainEnd(s, i) == i
    ensures Oldest(s, i, 0) == place[i]
  {
    PlaceStartsChain(place, s, i);
    forall j: nat | j < place[i] ensures ChainEnd(s, j) != i {
      NoOlderChain(place, s, i, j);
    }
    OldestIsFirst(s, i, place[i], 0);
  }

  lemma CoalescedStays(s: State, e: Event, m: nat)
    requires Sound(s) && Enabled(s, e) && m < |s.fate| && s.fate[m].Coalesced?
    ensures m < |Apply(s, e).fate| && Apply(s, e).fate[m] == s.fate[m]
  {
    FateStep(s, e, m);
  }

  lemma NotCoalescedByFlusher(s: State, e: Event, m: nat)
    requires Sound(s) && Enabled(s, e) && !e.Deferral? && m < |s.fate|
    ensures |Apply(s, e).fate| == |s.fate| && Apply(s, e).fate[m].Coalesced? == s.fate[m].Coalesced?
  {
  }

  /** If the fates that say Coalesced are the same, so are the places. */
  lemma PlacedStays(place: seq<nat>, s: State, s': State)
    requires Placed(place, s) && |s'.fate| == |s.fate|
    requires forall m :: 0 <= m < |s.fate| && (s.fate[m].Coalesced? || s'.fate[m].Coalesced?) ==>
               s'.fate[m] == s.fate[m]
    ensures Placed(place, s')
  {
    forall n | 0 <= n < |place| && place[n] != n ensures exists m :: Inherits(place, s', m, n) {
      var m :| Inherits(place, s, m, n);
      assert Inherits(place, s', m, n);
    }
  }

  /** The next offer coalesced nothing. */
  lemma PlacedByNew(place: seq<nat>, s: State, s': State)
    requires Placed(place, s) && |s'.fate| == |s.fate| + 1 && !s'.fate[|s.fate|].Coalesced?
    requires forall m :: 0 <= m < |s.fate| && (s.fate[m].Coalesced? || s'.fate[m].Coalesced?) ==>
               s'.fate[m] == s.fate[m]
    requires forall m :: 0 <= m < |s.fate| ==> s.fate[m] != Coalesced(|s.fate|)
    ensures Placed(place + [|place|], s')
  {
    var place' := place + [|place|];
    forall n | 0 <= n < |place'| && place'[n] != n ensures exists m :: Inherits(place', s', m, n) {
      var m :| Inherits(place, s, m, n);
      assert Inherits(place', s', m, n);
    }
  }

  /** The next offer took the place of m. */
  lemma PlacedByCoalescing(place: seq<nat>, s: State, s': State, m: nat)
    requires Placed(place, s) && m < |s.fate| && !s.fate[m].Coalesced?
    requires s'.fate == s.fate[m := Coalesced(|s.fate|)] + [Waiting]
    requires forall j :: 0 <= j < |s.fate| ==> s.fate[j] != Coalesced(|s.fate|)
    ensures Placed(place + [place[m]], s')
  {
    var place' := place + [place[m]];
    forall n | 0 <= n < |place'| && place'[n] != n ensures exists j :: Inherits(place', s', j, n) {
      if n == |place| {
        assert Inherits(place', s', m, n);
      } else {
        var j :| Inherits(place, s, j, n);
        assert Inherits(place', s', j, n);
      }
    }
  }

  lemma PlacedByOffer(place: seq<nat>, s: State, k: Kind)
    requires Ledger(s) && Placed(place, s)
    ensures Placed(place + [PlaceOf(place, s.d.queue, k)], AfterDeferral(s, k))
  {
    var s', b := AfterDeferral(s, k), BranchOf(s.d.queue, k);
    forall m | 0 <= m < |s.fate| ensures s.fate[m] != Coalesced(|s.fate|) {
      assert Justified(s, m);
    }
    if b.Coalesce? {
      assert Genuine(s, s.d.queue[b.position], Waiting);
      PlacedByCoalescing(place, s, s', s.d.queue[b.position].body.index);
    } else {
      OfferFates(s, k, |s.fate|);
      forall m | 0 <= m < |s.fate| && (s.fate[m].Coalesced? || s'.fate[m].Coalesced?)
        ensures s'.fate[m] == s.fate[m]
      {
        EntryAfterOffer(s, b, k, m);
      }
      PlacedByNew(place, s, s');
    }
  }

  lemma PlacedStep(place: seq<nat>, s: State, e: Event)
    requires Sound(s) && Enabled(s, e) && Placed(place, s)
    ensures Placed(PlacesAfter(place, s, e), Apply(s, e))
  {
    if e.Deferral? {
      PlacedByOffer(place, s, e.kind);
    } else {
      var s' := Apply(s, e);
      OnlyOffersGrow(s, e);
      forall m | 0 <= m < |s.fate| && (s.fate[m].Coalesced? || s'.fate[m].Coalesced?)
        ensures s'.fate[m] == s.fate[m]
      {
        NotCoalescedByFlusher(s, e, m);
        CoalescedStays(s, e, m);
      }
      PlacedStays(place, s, s');
    }
  }

  lemma {:induction false} SortedRun(place: seq<nat>, fifo: bool, s: State, es: seq<Event>) returns (places: seq<nat>)
    requires Sound(s) && Sorted(place, fifo, s) && Placed(place, s)
    requires Legal(s, es) && (fifo ==> SendsWhenIdle(s, es))
    ensures Sound(Final(s, es)) && Sorted(places, fifo, Final(s, es)) && Placed(places, Final(s, es))
    decreases |es|
  {
    places := place;
    if es != [] {
      SortedStep(place, fifo, s, es[0]);
      PlacedStep(place, s, es[0]);
      SoundStep(s, es[0]);
      places := SortedRun(PlacesAfter(place, s, es[0]), fifo, Apply(s, es[0]), es[1..]);
    }
  }

  /** What was delivered ends its chain. */
  lemma SentIsOrdered(place: seq<nat>, fifo: bool, s: State)
    requires Ledger(s) && Sorted(place, fifo, s) && Placed(place, s)
    ensures Ordered(Places(s), fifo, s.sent)
  {
    forall p | 0 <= p < |s.sent| && s.sent[p].body.Offered?
      ensures s.sent[p].body.index < |place| && Places(s)[s.sent[p].body.index] == place[s.sent[p].body.index]
    {
      assert Genuine(s, s.sent[p], Delivered);
      OldestIsPlace(place, s, s.sent[p].body.index);
    }
    SameOrder(place, Places(s), fifo, s.sent, Pipeline(s));
  }

  lemma SameOrder(place: seq<nat>, place': seq<nat>, fifo: bool, sent: seq<Item>, all: seq<Item>)
    requires Ordered(place, fifo, all) && sent <= all && |place| == |place'|
    requires forall p :: 0 <= p < |sent| && sent[p].body.Offered? ==>
               sent[p].body.index < |place| && place'[sent[p].body.index] == place[sent[p].body.index]
    ensures Ordered(place', fifo, sent)
  {
    forall p, q | 0 <= p < q < |sent| ensures MayPrecede(place', fifo, sent[p], sent[q]) {
      assert MayPrecede(place, fifo, all[p], all[q]);
    }
  }

  lemma StartIsSorted(fifo: bool)
    ensures Sound(INIT) && Sorted([], fifo, INIT) && Placed([], INIT)
  {
    StartIsGood();
    StartIsPlaced(INIT);
    assert Pipeline(INIT) == [];
    EmptyIsArranged(fifo, Pipeline(INIT));
  }

  lemma StartIsPlaced(s: State)
    requires s.fate == []
    ensures Placed([], s)
  {
  }

  lemma EmptyIsArranged(fifo: bool, items: seq<Item>)
    requires items == []
    ensures Arranged([], fifo, items)
  {
  }

  lemma SoundIsLedger(s: State)
    requires Sound(s)
    ensures Ledger(s)
  {
  }

  lemma OrderedSent(es: seq<Event>, s: State, fifo: bool)
    requires Legal(INIT, es) && s == Final(INIT, es) && (fifo ==> SendsWhenIdle(INIT, es))
    ensures Ordered(Places(s), fifo, s.sent)
  {
    StartIsSorted(fifo);
    var place := SortedRun([], fifo, INIT, es);
    SoundIsLedger(s);
    SentIsOrdered(place, fifo, s);
  }

  /** The order of every run.  The place of an offer is that of the oldest one whose coalescing
      chain ends in it, its own unless an older one coalesced into it; in the stream, deferred
      updates stand strictly in the order of their places, and a direct update stands behind
      every direct one sent and every deferred one delivered before it.  The only other way to
      leave first-in-first-out is a direct send that overtakes: if every direct send found
      nothing pending, none stands behind an update whose place is older, either. */
  lemma OrderOfDelivery(es: seq<Event>, s: State)
    requires Legal(INIT, es) && s == Final(INIT, es)
    ensures Ordered(Places(s), false, s.sent)
    ensures SendsWhenIdle(INIT, es) ==> Ordered(Places(s), true, s.sent)
  {
    OrderedSent(es, s, false);
    if SendsWhenIdle(INIT, es) {
      OrderedSent(es, s, true);
    }
  }

  lemma {:induction false} OldestEndsHere(s: State, i: nat, k: nat)
    requires k <= i < |s.fate| && ChainEnd(s, i) == i
    ensures ChainEnd(s, Oldest(s, i, k)) == i
    decreases i - k
  {
    if k < i && ChainEnd(s, k) != i {
      OldestEndsHere(s, i, k + 1);
    }
  }

  /** A later offer stands before an earlier one only in the place of a still earlier one, which
      coalesced into it. */
  lemma LaterOnlyInAnOlderPlace(es: seq<Event>, s: State, p: nat, q: nat)
    requires Legal(INIT, es) && s == Final(INIT, es) && p < q < |s.sent|
    requires s.sent[p].body.Offered? && s.sent[q].body.Offered? && s.sent[q].body.index < s.sent[p].body.index
    ensures s.sent[p].body.index < |s.fate|
    ensures exists k: nat :: k < s.sent[q].body.index && ChainEnd(s, k) == s.sent[p].body.index
  {
    OrderOfDelivery(es, s);
    ReachesLive(es, s);
    assert Genuine(s, s.sent[p], Delivered);
    assert MayPrecede(Places(s), false, s.sent[p], s.sent[q]);
    OldestEndsHere(s, s.sent[p].body.index, 0);
  }
}
