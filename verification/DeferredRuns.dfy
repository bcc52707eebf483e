/** Every interleaving of producers, flusher tasks, the bounded channel and its
    receiver around one DeferredDelivery, as a state machine.

    Each update given to the deferred queue is known by its place in the order of
    those offers, and the machine keeps a ledger of what became of it. */
module DeferredRuns {
  import opened DeferredQueue

  const UPDATE_CAPACITY := 256

  type Item = Update

  /** The ledger entry of one offered update. */
  datatype Fate =
    | Waiting
    | Held
    | Delivered
    | Coalesced(later: nat)
    | Superseded(later: nat)   // by a Snapshot that carries its kind
    | Lost(later: nat)         // to a Snapshot that does not
    | Dropped(cause: nat, epoch: nat, mark: nat)
    | Detached

  /** A spawned flusher task.  Starting covers the gap between setting the flag and
      its first step. */
  datatype Flusher = Starting | AtLoop | Sending(item: Item) | Rejected

  datatype State = State(
    d: Delivery,
    tasks: seq<Flusher>,
    retrying: multiset<Kind>,   // in publish_critical, before its try_send
    deferring: multiset<Kind>,  // in defer_critical, before it takes the lock
    sent: seq<Item>,            // everything the channel ever accepted, in order
    received: nat,              // how many of those the receiver took
    open: bool,
    offered: seq<Kind>,
    fate: seq<Fate>,
    at: seq<nat>,               // how much the channel had accepted at each offer
    emitted: nat)               // how many ResyncRequired the flusher made up

  const INIT := State(Cleared(), [], multiset{}, multiset{}, [], 0, true, [], [], [], 0)

  datatype Event =
    | PublishSent(kind: Kind)
    | PublishSkipped
    | Critical(kind: Kind)
    | CriticalSent(kind: Kind)
    | CriticalFull(kind: Kind)
    | CriticalClosed(kind: Kind)
    | Deferral(kind: Kind)
    | Begin(task: nat)
    | Take(task: nat)
    | SendOk(task: nat)
    | SendFailed(task: nat)
    | CleanUp(task: nat)
    | Receive
    | Close

  predicate HasRoom(s: State) {
    s.open && s.received <= |s.sent| < s.received + UPDATE_CAPACITY
  }

  /** `try_send` also reports Full while a waiting send has the free slot reserved. */
  predicate ReportsFull(s: State) {
    s.open && (!HasRoom(s) || exists t :: 0 <= t < |s.tasks| && s.tasks[t].Sending?)
  }

  predicate Enabled(s: State, e: Event) {
    match e
    case PublishSent(_) => HasRoom(s)
    case PublishSkipped => ReportsFull(s)
    case Critical(_) => true
    case CriticalSent(k) => k in s.retrying && HasRoom(s)
    case CriticalFull(k) => k in s.retrying && ReportsFull(s)
    case CriticalClosed(k) => k in s.retrying && !s.open
    case Deferral(k) => k in s.deferring
    case Begin(t) => t < |s.tasks| && s.tasks[t] == Starting
    case Take(t) => t < |s.tasks| && s.tasks[t] == AtLoop
    case SendOk(t) => t < |s.tasks| && s.tasks[t].Sending? && HasRoom(s)
    case SendFailed(t) => t < |s.tasks| && s.tasks[t].Sending? && !s.open
    case CleanUp(t) => t < |s.tasks| && s.tasks[t] == Rejected
    case Receive => s.received < |s.sent|
    case Close => s.open
  }

  function WithoutTask(s: State, t: nat): State
    requires t < |s.tasks|
  {
    s.(tasks := s.tasks[..t] + s.tasks[t + 1..])
  }

  /** The ledger after offer number |fate| of `kind` took branch `b`. */
  function FateAfterOffer(s: State, b: Branch): seq<Fate>
    requires b.Coalesce? || b.Evict? ==> b.position < |s.d.queue|
  {
    var j := |s.fate|;
    var drop := Dropped(j, s.emitted, |s.sent|);
    match b
    case Supersede =>
      seq(j, i requires 0 <= i < j =>
        if s.fate[i] == Waiting && i < |s.offered| && !IsPriority(s.offered[i]) then Taken(s.offered[i], j)
        else s.fate[i]) + [Waiting]
    case Coalesce(p) => Recorded(s.fate, s.d.queue[p].body, Coalesced(j)) + [Waiting]
    case Append => s.fate + [Waiting]
    case Evict(p) => Recorded(s.fate, s.d.queue[p].body, drop) + [Waiting]
    case Refuse => s.fate + [drop]
  }

  /** What a Snapshot offered as number j makes of a queued update of `kind`. */
  function Taken(kind: Kind, j: nat): Fate {
    if SnapshotCarries(kind) then Superseded(j) else Lost(j)
  }

  function Recorded(fate: seq<Fate>, origin: Origin, f: Fate): seq<Fate> {
    if origin.Offered? && origin.index < |fate| then fate[origin.index := f] else fate
  }

  function AfterDeferral(s: State, k: Kind): State {
    var b := BranchOf(s.d.queue, k);
    s.(deferring := s.deferring - multiset{k},
       d := Queued(s.d, Update(k, Offered(|s.offered|))).(flushing := true),
       tasks := if s.d.flushing then s.tasks else s.tasks + [Starting],
       offered := s.offered + [k], at := s.at + [|s.sent|],
       fate := FateAfterOffer(s, b))
  }

  function AfterTake(s: State, t: nat): State
    requires t < |s.tasks|
  {
    var s' := s.(d := AfterNext(s.d));
    match NextOf(s.d)
    case Send(u) => s'.(tasks := s.tasks[t := Sending(u)], fate := Recorded(s.fate, u.body, Held))
    case SendResync =>
      s'.(tasks := s.tasks[t := Sending(Update(ResyncRequired, Synthesized(s.emitted)))], emitted := s.emitted + 1)
    case Idle => WithoutTask(s', t)
  }

  function DetachWaiting(fate: seq<Fate>): seq<Fate> {
    seq(|fate|, i requires 0 <= i < |fate| => if fate[i] == Waiting then Detached else fate[i])
  }

  function Apply(s: State, e: Event): State
    requires Enabled(s, e)
  {
    match e
    case PublishSent(k) => s.(sent := s.sent + [Update(k, Direct(|s.offered|))])
    case PublishSkipped => s
    case Critical(k) => s.(retrying := s.retrying + multiset{k})
    case CriticalSent(k) => s.(retrying := s.retrying - multiset{k}, sent := s.sent + [Update(k, Direct(|s.offered|))])
    case CriticalFull(k) => s.(retrying := s.retrying - multiset{k}, deferring := s.deferring + multiset{k})
    case CriticalClosed(k) => s.(retrying := s.retrying - multiset{k})
    case Deferral(k) => AfterDeferral(s, k)
    case Begin(t) => s.(tasks := s.tasks[t := AtLoop])
    case Take(t) => AfterTake(s, t)
    case SendOk(t) =>
      s.(tasks := s.tasks[t := AtLoop], sent := s.sent + [s.tasks[t].item],
         fate := Recorded(s.fate, s.tasks[t].item.body, Delivered))
    case SendFailed(t) =>
      s.(tasks := s.tasks[t := Rejected], fate := Recorded(s.fate, s.tasks[t].item.body, Detached))
    case CleanUp(t) => WithoutTask(s, t).(d := Cleared(), fate := DetachWaiting(s.fate))
    case Receive => s.(received := s.received + 1)
    case Close => s.(open := false)
  }

  /** A run is a sequence of events, each enabled where it happens. */
  predicate Legal(s: State, es: seq<Event>)
    decreases |es|
  {
    es == [] || (Enabled(s, es[0]) && Legal(Apply(s, es[0]), es[1..]))
  }

  function Final(s: State, es: seq<Event>): State
    requires Legal(s, es)
    decreases |es|
  {
    if es == [] then s else Final(Apply(s, es[0]), es[1..])
  }

  // ------------------------------------------------------------ one flusher

  /** `flushing` counts the flusher tasks, and no work is left without one. */
  predicate OneFlusher(s: State) {
    && |s.tasks| == (if s.d.flushing then 1 else 0)
    && (s.d.queue != [] || s.d.resync ==> s.d.flushing)
  }

  lemma OneFlusherStep(s: State, e: Event)
    requires OneFlusher(s) && Enabled(s, e)
    ensures OneFlusher(Apply(s, e))
  {
  }

  // --------------------------------------------------------------- ledger

  predicate InQueue(s: State, i: nat) {
    exists p :: 0 <= p < |s.d.queue| && s.d.queue[p].body == Offered(i)
  }

  predicate InFlight(s: State, i: nat) {
    |s.tasks| == 1 && s.tasks[0].Sending? && s.tasks[0].item.body == Offered(i)
  }

  predicate InChannelHistory(s: State, i: nat) {
    exists p :: 0 <= p < |s.sent| && s.sent[p].body == Offered(i)
  }

  /** The queue holds offered updates, none twice. */
  predicate QueueLedger(s: State) {
    && (forall p :: 0 <= p < |s.d.queue| ==> Genuine(s, s.d.queue[p], Waiting) && s.d.queue[p].body.Offered?)
    && (forall p, r :: 0 <= p < r < |s.d.queue| ==> s.d.queue[p].body != s.d.queue[r].body)
    && (forall i :: 0 <= i < |s.fate| && s.fate[i] == Waiting ==> InQueue(s, i))
  }

  predicate HeldLedger(s: State) {
    && (forall t :: 0 <= t < |s.tasks| && s.tasks[t].Sending? ==>
          Genuine(s, s.tasks[t].item, Held) && !s.tasks[t].item.body.Direct?)
    && (forall t, p :: 0 <= t < |s.tasks| && s.tasks[t].Sending? && 0 <= p < |s.sent| ==>
          s.sent[p].body != s.tasks[t].item.body)
    && (forall i :: 0 <= i < |s.fate| && s.fate[i] == Held ==> InFlight(s, i))
  }

  predicate SentLedger(s: State) {
    && (forall p :: 0 <= p < |s.sent| ==> Genuine(s, s.sent[p], Delivered))
    && (forall p, r :: 0 <= p < r < |s.sent| && s.sent[p].body == s.sent[r].body ==> s.sent[p].body.Direct?)
    && (forall i :: 0 <= i < |s.fate| && s.fate[i] == Delivered ==> InChannelHistory(s, i))
  }

  /** An item claiming to be offer i is offer i, in the state `f`. */
  predicate Genuine(s: State, item: Item, f: Fate) {
    match item.body
    case Offered(i) => i < |s.fate| && i < |s.offered| && s.offered[i] == item.kind && s.fate[i] == f
    case Synthesized(n) => n < s.emitted && item.kind == ResyncRequired
    case Direct(_) => true
  }

  /** Why a lost update was lost. */
  predicate Justified(s: State, i: nat)
    requires i < |s.fate| == |s.offered|
  {
    match s.fate[i]
    case Coalesced(later) => i < later < |s.offered| && SameReplaceableState(s.offered[i], s.offered[later])
    case Superseded(later) =>
      && i < later < |s.offered| && s.offered[later] == Snapshot
      && !IsPriority(s.offered[i]) && SnapshotCarries(s.offered[i])
    case Lost(later) => i < later < |s.offered| && s.offered[later] == Snapshot && !SnapshotCarries(s.offered[i])
    case Dropped(cause, _, _) =>
      i <= cause < |s.offered| && (i < cause ==> IsPriority(s.offered[cause]) && !IsPriority(s.offered[i]))
    case Detached => !s.open
    case _ => true
  }

  predicate Ledger(s: State) {
    && |s.fate| == |s.offered| && s.received <= |s.sent|
    && QueueLedger(s) && HeldLedger(s) && SentLedger(s)
    && (forall i :: 0 <= i < |s.fate| ==> Justified(s, i))
  }

  lemma {:induction false} QueueAfterCoalesce(s: State, k: Kind, p: nat)
    requires Ledger(s) && BranchOf(s.d.queue, k) == Coalesce(p)
    ensures QueueLedger(AfterDeferral(s, k))
  {
    var s' := AfterDeferral(s, k);
    var q, q' := s.d.queue, s'.d.queue;
    assert Genuine(s, q[p], Waiting);
    var victim := q[p].body.index;
    forall i | 0 <= i < |s.fate| && i != victim ensures s'.fate[i] == s.fate[i] {}
    forall r | 0 <= r < |q'| ensures Genuine(s', q'[r], Waiting) && q'[r].body.Offered? {
      assert Genuine(s, q[r], Waiting);
    }
    forall i | 0 <= i < |s'.fate| && s'.fate[i] == Waiting ensures InQueue(s', i) {
      if i < |s.fate| {
        assert InQueue(s, i);
        var r :| 0 <= r < |q| && q[r].body == Offered(i);
        assert q'[r].body == Offered(i);
      } else {
        assert q'[p].body == Offered(i);
      }
    }
  }

  lemma {:induction false} LedgerAfterCoalesce(s: State, k: Kind, p: nat)
    requires OneFlusher(s) && Ledger(s) && BranchOf(s.d.queue, k) == Coalesce(p)
    ensures Ledger(AfterDeferral(s, k))
  {
    var s' := AfterDeferral(s, k);
    assert Genuine(s, s.d.queue[p], Waiting);
    forall i | 0 <= i < |s'.fate| ensures Justified(s', i) {
      assert i < |s.fate| ==> Justified(s, i);
    }
    KeptElsewhere(s, s');
    QueueAfterCoalesce(s, k, p);
  }

  lemma {:induction false} QueueAfterAppend(s: State, k: Kind)
    requires Ledger(s) && BranchOf(s.d.queue, k) == Append
    ensures QueueLedger(AfterDeferral(s, k))
  {
    var s' := AfterDeferral(s, k);
    var q, q' := s.d.queue, s'.d.queue;
    assert q'[|q|].body == Offered(|s.fate|);
    forall i | 0 <= i < |s.fate| && s'.fate[i] == Waiting ensures InQueue(s', i) {
      assert InQueue(s, i);
      var r :| 0 <= r < |q| && q[r].body == Offered(i);
      assert q'[r].body == Offered(i);
    }
  }

  lemma {:induction false} LedgerAfterAppend(s: State, k: Kind)
    requires OneFlusher(s) && Ledger(s) && BranchOf(s.d.queue, k) == Append
    ensures Ledger(AfterDeferral(s, k))
  {
    var s' := AfterDeferral(s, k);
    forall i | 0 <= i < |s'.fate| ensures Justified(s', i) {
      assert i < |s.fate| ==> Justified(s, i);
    }
    KeptElsewhere(s, s');
    QueueAfterAppend(s, k);
  }

  lemma LedgerAfterRefusal(s: State, k: Kind)
    requires OneFlusher(s) && Ledger(s) && BranchOf(s.d.queue, k) == Refuse
    ensures Ledger(AfterDeferral(s, k))
  {
    var s' := AfterDeferral(s, k);
    forall i | 0 <= i < |s'.fate| && s'.fate[i] == Waiting ensures InQueue(s', i) {
      assert InQueue(s, i);
    }
    forall i | 0 <= i < |s'.fate| ensures Justified(s', i) {
      assert i < |s.fate| ==> Justified(s, i);
    }
    KeptElsewhere(s, s');
  }

  /** The queue without its entry p. */
  lemma {:induction false} EvictedQueue(s: State, k: Kind, p: nat)
    requires |s.fate| == |s.offered| && BranchOf(s.d.queue, k) == Evict(p)
    ensures var q, q' := s.d.queue, AfterDeferral(s, k).d.queue;
            && |q'| == |q| && q'[|q| - 1] == Update(k, Offered(|s.fate|))
            && forall r :: 0 <= r < |q| - 1 ==> q'[r] == q[if r < p then r else r + 1]
  {
    EntriesAround(s.d.queue, p, Update(k, Offered(|s.offered|)));
  }

  lemma EntriesAround(q: seq<Update>, p: nat, u: Update)
    requires p < |q|
    ensures var q' := q[..p] + q[p + 1..] + [u];
            |q'| == |q| && q'[|q| - 1] == u && forall r :: 0 <= r < |q| - 1 ==> q'[r] == q[if r < p then r else r + 1]
  {
  }

  lemma {:induction false} EvictedGenuine(s: State, k: Kind, p: nat, r: nat)
    requires Ledger(s) && BranchOf(s.d.queue, k) == Evict(p) && r < |s.d.queue| && r != p
    ensures s.d.queue[r].body.Offered? && Genuine(AfterDeferral(s, k), s.d.queue[r], Waiting)
  {
    assert Genuine(s, s.d.queue[p], Waiting) && Genuine(s, s.d.queue[r], Waiting);
    assert s.d.queue[r].body != s.d.queue[p].body;
  }

  lemma {:induction false} EvictedWaiting(s: State, k: Kind, p: nat, i: nat)
    requires Ledger(s) && BranchOf(s.d.queue, k) == Evict(p)
    requires i < |s.fate| && AfterDeferral(s, k).fate[i] == Waiting
    ensures InQueue(AfterDeferral(s, k), i)
  {
    assert Genuine(s, s.d.queue[p], Waiting);
    assert InQueue(s, i);
    var r :| 0 <= r < |s.d.queue| && s.d.queue[r].body == Offered(i);
    EvictedQueue(s, k, p);
    assert AfterDeferral(s, k).d.queue[if r < p then r else r - 1].body == Offered(i);
  }

  lemma {:induction false} QueueAfterEvict(s: State, k: Kind, p: nat)
    requires Ledger(s) && BranchOf(s.d.queue, k) == Evict(p)
    ensures QueueLedger(AfterDeferral(s, k))
  {
    var s' := AfterDeferral(s, k);
    var q, q', n := s.d.queue, s'.d.queue, |s.d.queue|;
    EvictedQueue(s, k, p);
    forall r | 0 <= r < n ensures Genuine(s', q'[r], Waiting) && q'[r].body.Offered? {
      if r < n - 1 {
        EvictedGenuine(s, k, p, if r < p then r else r + 1);
      }
    }
    forall r, t | 0 <= r < t < n ensures q'[r].body != q'[t].body {
      if t == n - 1 {
        assert Genuine(s, q[if r < p then r else r + 1], Waiting);
      }
    }
    forall i | 0 <= i < |s'.fate| && s'.fate[i] == Waiting ensures InQueue(s', i) {
      if i < |s.fate| {
        EvictedWaiting(s, k, p, i);
      }
    }
  }

  lemma {:induction false} LedgerAfterEvict(s: State, k: Kind, p: nat)
    requires OneFlusher(s) && Ledger(s) && BranchOf(s.d.queue, k) == Evict(p)
    ensures Ledger(AfterDeferral(s, k))
  {
    var s' := AfterDeferral(s, k);
    assert Genuine(s, s.d.queue[p], Waiting);
    forall i | 0 <= i < |s'.fate| ensures Justified(s', i) {
      assert i < |s.fate| ==> Justified(s, i);
    }
    KeptElsewhere(s, s');
    QueueAfterEvict(s, k, p);
  }

  ghost predicate DistinctBodies(q: seq<Update>) {
    forall p, r :: 0 <= p < r < |q| ==> q[p].body != q[r].body
  }

  /** What retention keeps: the priority entries, each once. */
  lemma {:induction false} PrioritiesAreASubsequence(q: seq<Update>)
    requires DistinctBodies(q)
    ensures forall u :: u in Priorities(q) <==> u in q && IsPriority(u.kind)
    ensures DistinctBodies(Priorities(q))
  {
    if q != [] {
      var rest := Priorities(q[1..]);
      PrioritiesAreASubsequence(q[1..]);
      assert forall u :: u in q <==> u == q[0] || u in q[1..];
      forall r | 0 <= r < |rest| ensures rest[r].body != q[0].body {
        assert rest[r] in rest;
      }
      var k := Priorities(q);
      if IsPriority(q[0].kind) {
        assert k == [q[0]] + rest;
      } else {
        assert k == rest;
      }
    }
  }

  lemma {:induction false} KeptBySupersede(s: State)
    requires Ledger(s)
    ensures var s', kept := AfterDeferral(s, Snapshot), Priorities(s.d.queue);
            && s'.d.queue == kept + [Update(Snapshot, Offered(|s.fate|))] && DistinctBodies(kept)
            && forall p :: 0 <= p < |kept| ==> kept[p].body.Offered? && Genuine(s', kept[p], Waiting)
  {
    var s', kept := AfterDeferral(s, Snapshot), Priorities(s.d.queue);
    PrioritiesAreASubsequence(s.d.queue);
    forall p | 0 <= p < |kept| ensures kept[p].body.Offered? && Genuine(s', kept[p], Waiting) {
      assert kept[p] in kept;
      var r :| 0 <= r < |s.d.queue| && s.d.queue[r] == kept[p];
      assert Genuine(s, s.d.queue[r], Waiting);
    }
  }

  lemma {:induction false} WaitingAfterSupersede(s: State, i: nat)
    requires Ledger(s) && i < |s.fate| && s.fate[i] == Waiting && IsPriority(s.offered[i])
    ensures InQueue(AfterDeferral(s, Snapshot), i)
  {
    var q, kept := s.d.queue, Priorities(s.d.queue);
    PrioritiesAreASubsequence(q);
    assert InQueue(s, i);
    var r :| 0 <= r < |q| && q[r].body == Offered(i);
    assert Genuine(s, q[r], Waiting);
    assert q[r] in q;
    var t :| 0 <= t < |kept| && kept[t] == q[r];
    assert AfterDeferral(s, Snapshot).d.queue[t].body == Offered(i);
  }

  lemma {:induction false} QueueAfterSupersede(s: State)
    requires Ledger(s)
    ensures QueueLedger(AfterDeferral(s, Snapshot))
  {
    var s' := AfterDeferral(s, Snapshot);
    var q', n, m := s'.d.queue, |s.fate|, |Priorities(s.d.queue)|;
    KeptBySupersede(s);
    assert q'[m] == Update(Snapshot, Offered(n));
    forall p, r | 0 <= p < r < |q'| ensures q'[p].body != q'[r].body {
      if r == m {
        assert Genuine(s', q'[p], Waiting) && s'.fate[q'[p].body.index] == Waiting;
        assert q'[p].body.index < n by {
          PrioritiesAreASubsequence(s.d.queue);
          assert q'[p] in Priorities(s.d.queue);
          var t :| 0 <= t < |s.d.queue| && s.d.queue[t] == q'[p];
          assert Genuine(s, s.d.queue[t], Waiting);
        }
      }
    }
    forall i | 0 <= i < |s'.fate| && s'.fate[i] == Waiting ensures InQueue(s', i) {
      if i < n {
        WaitingAfterSupersede(s, i);
      }
    }
  }

  lemma {:induction false} LedgerAfterSupersede(s: State)
    requires OneFlusher(s) && Ledger(s)
    ensures Ledger(AfterDeferral(s, Snapshot))
  {
    var s' := AfterDeferral(s, Snapshot);
    forall i | 0 <= i < |s'.fate| ensures Justified(s', i) {
      assert i < |s.fate| ==> Justified(s, i);
    }
    KeptElsewhere(s, s');
    QueueAfterSupersede(s);
  }

  /** An offer touches neither the held update nor the channel. */
  lemma KeptElsewhere(s: State, s': State)
    requires OneFlusher(s) && Ledger(s)
    requires s'.sent == s.sent && s'.emitted == s.emitted && s.offered <= s'.offered
    requires |s'.fate| == |s'.offered| >= |s.fate|
    requires s'.tasks == s.tasks || (s.tasks == [] && s'.tasks == [Starting])
    requires forall i :: 0 <= i < |s'.fate| ==>
               if i < |s.fate| && s.fate[i] != Waiting then s'.fate[i] == s.fate[i]
               else s'.fate[i] != Held && s'.fate[i] != Delivered
    ensures HeldLedger(s') && SentLedger(s')
  {
    forall p | 0 <= p < |s'.sent| ensures Genuine(s', s'.sent[p], Delivered) {
      assert Genuine(s, s.sent[p], Delivered);
    }
    forall i | 0 <= i < |s'.fate| && s'.fate[i] == Delivered ensures InChannelHistory(s', i) {
      assert InChannelHistory(s, i);
    }
    forall i | 0 <= i < |s'.fate| && s'.fate[i] == Held ensures InFlight(s', i) {
      assert InFlight(s, i);
    }
    forall t | 0 <= t < |s'.tasks| && s'.tasks[t].Sending? ensures Genuine(s', s'.tasks[t].item, Held) {
      assert Genuine(s, s.tasks[t].item, Held);
    }
  }

  lemma {:induction false} QueueAfterTake(s: State)
    requires OneFlusher(s) && Ledger(s) && Enabled(s, Take(0))
    ensures QueueLedger(AfterTake(s, 0))
  {
    var s' := AfterTake(s, 0);
    var q, q' := s.d.queue, s'.d.queue;
    if q != [] {
      assert Genuine(s, q[0], Waiting);
      assert forall p :: 0 <= p < |q'| ==> q'[p] == q[p + 1];
      forall p | 0 <= p < |q'| ensures Genuine(s', q'[p], Waiting) && q'[p].body.Offered? {
        assert Genuine(s, q[p + 1], Waiting);
      }
    }
    forall i | 0 <= i < |s'.fate| && s'.fate[i] == Waiting ensures InQueue(s', i) {
      assert InQueue(s, i);
      var r :| 0 <= r < |q| && q[r].body == Offered(i);
      assert q'[r - 1].body == Offered(i);
    }
  }

  lemma {:induction false} HeldAfterTake(s: State)
    requires OneFlusher(s) && Ledger(s) && Enabled(s, Take(0))
    ensures HeldLedger(AfterTake(s, 0))
  {
    var s' := AfterTake(s, 0);
    if s.d.queue != [] {
      assert Genuine(s, s.d.queue[0], Waiting);
    }
    forall p | 0 <= p < |s.sent| ensures Genuine(s, s.sent[p], Delivered) {}
    forall i | 0 <= i < |s.fate| ensures s.fate[i] != Held {
      assert !InFlight(s, i);
    }
  }

  lemma {:induction false} LedgerAfterTake(s: State)
    requires OneFlusher(s) && Ledger(s) && Enabled(s, Take(0))
    ensures Ledger(AfterTake(s, 0))
  {
    var s' := AfterTake(s, 0);
    QueueAfterTake(s);
    HeldAfterTake(s);
    if s.d.queue != [] {
      assert Genuine(s, s.d.queue[0], Waiting);
    }
    forall p | 0 <= p < |s'.sent| ensures Genuine(s', s'.sent[p], Delivered) {
      assert Genuine(s, s.sent[p], Delivered);
    }
    forall i | 0 <= i < |s'.fate| ensures Justified(s', i) && (s'.fate[i] == Delivered ==> InChannelHistory(s', i)) {
      assert Justified(s, i);
      assert s.fate[i] == Delivered ==> InChannelHistory(s, i);
    }
  }

  lemma LedgerAfterSend(s: State)
    requires OneFlusher(s) && Ledger(s) && Enabled(s, SendOk(0))
    ensures Ledger(Apply(s, SendOk(0)))
  {
    var s' := Apply(s, SendOk(0));
    var item := s.tasks[0].item;
    assert Genuine(s, item, Held);
    assert forall i :: 0 <= i < |s.fate| && Offered(i) != item.body ==> s'.fate[i] == s.fate[i];
    forall i | 0 <= i < |s'.fate| && s'.fate[i] == Waiting ensures InQueue(s', i) {
      assert InQueue(s, i);
    }
    forall p, r | 0 <= p < r < |s'.sent| && s'.sent[p].body == s'.sent[r].body ensures s'.sent[p].body.Direct? {
      assert Genuine(s, s.sent[p], Delivered);
    }
    forall i | 0 <= i < |s'.fate| && s'.fate[i] == Delivered ensures InChannelHistory(s', i) {
      if Offered(i) == item.body {
        assert s'.sent[|s.sent|].body == Offered(i);
      } else {
        var p :| 0 <= p < |s.sent| && s.sent[p].body == Offered(i);
        assert s'.sent[p].body == Offered(i);
      }
    }
    forall i | 0 <= i < |s'.fate| ensures s'.fate[i] != Held && Justified(s', i) {
      assert Justified(s, i);
      assert s.fate[i] == Held ==> InFlight(s, i);
    }
  }

  lemma LedgerAfterSendFailed(s: State)
    requires OneFlusher(s) && Ledger(s) && Enabled(s, SendFailed(0))
    ensures Ledger(Apply(s, SendFailed(0)))
  {
    var s' := Apply(s, SendFailed(0));
    assert Genuine(s, s.tasks[0].item, Held);
    forall i | 0 <= i < |s'.fate| && s'.fate[i] == Waiting ensures InQueue(s', i) {
      assert InQueue(s, i);
    }
    forall i | 0 <= i < |s'.fate| && s'.fate[i] == Delivered ensures InChannelHistory(s', i) {
      assert InChannelHistory(s, i);
    }
    forall i | 0 <= i < |s'.fate| ensures s'.fate[i] != Held && Justified(s', i) {
      assert Justified(s, i);
      assert s.fate[i] == Held ==> InFlight(s, i);
    }
  }

  lemma LedgerAfterCleanUp(s: State)
    requires OneFlusher(s) && Ledger(s) && Enabled(s, CleanUp(0)) && !s.open
    ensures Ledger(Apply(s, CleanUp(0)))
  {
    var s' := Apply(s, CleanUp(0));
    forall i | 0 <= i < |s'.fate| && s'.fate[i] == Delivered ensures InChannelHistory(s', i) {
      assert InChannelHistory(s, i);
    }
    forall i | 0 <= i < |s'.fate| ensures s'.fate[i] != Held && Justified(s', i) {
      assert Justified(s, i);
      assert s.fate[i] == Held ==> InFlight(s, i);
    }
  }

  lemma LedgerAfterQuiet(s: State, s': State)
    requires OneFlusher(s) && Ledger(s)
    requires s'.d == s.d && s'.offered == s.offered && s'.fate == s.fate && s'.emitted == s.emitted
    requires s'.tasks == s.tasks || (|s.tasks| == |s'.tasks| == 1 && !s.tasks[0].Sending? && !s'.tasks[0].Sending?)
    requires s'.open ==> s.open
    requires s'.received <= |s'.sent|
    requires s'.sent == s.sent || (|s'.sent| == |s.sent| + 1 && s.sent <= s'.sent && s'.sent[|s.sent|].body.Direct?)
    ensures Ledger(s')
  {
    forall i | 0 <= i < |s'.fate| && s'.fate[i] == Waiting ensures InQueue(s', i) {
      assert InQueue(s, i);
    }
    forall i | 0 <= i < |s'.fate| && s'.fate[i] == Delivered ensures InChannelHistory(s', i) {
      var p :| 0 <= p < |s.sent| && s.sent[p].body == Offered(i);
      assert s'.sent[p].body == Offered(i);
    }
    forall i | 0 <= i < |s'.fate| && s'.fate[i] == Held ensures InFlight(s', i) {
      assert InFlight(s, i);
    }
    forall i | 0 <= i < |s'.fate| ensures Justified(s', i) {
      assert Justified(s, i);
    }
  }

  /** A failed send means the receiver is gone, and it never comes back. */
  predicate FailureMeansClosed(s: State) {
    forall t :: 0 <= t < |s.tasks| && s.tasks[t] == Rejected ==> !s.open
  }

  predicate Sound(s: State) {
    OneFlusher(s) && FailureMeansClosed(s) && Ledger(s)
  }

  lemma {:induction false} LedgerAfterOffer(s: State, k: Kind)
    requires OneFlusher(s) && Ledger(s)
    ensures Ledger(AfterDeferral(s, k))
  {
    match BranchOf(s.d.queue, k)
    case Supersede => LedgerAfterSupersede(s);
    case Coalesce(p) => LedgerAfterCoalesce(s, k, p);
    case Append => LedgerAfterAppend(s, k);
    case Evict(p) => LedgerAfterEvict(s, k, p);
    case Refuse => LedgerAfterRefusal(s, k);
  }

  predicate TouchesQueue(e: Event) {
    e.Deferral? || e.Take? || e.SendOk? || e.SendFailed? || e.CleanUp?
  }

  lemma {:induction false} LedgerQuietStep(s: State, e: Event)
    requires OneFlusher(s) && Ledger(s) && Enabled(s, e) && !TouchesQueue(e)
    ensures Ledger(Apply(s, e))
  {
    LedgerAfterQuiet(s, Apply(s, e));
  }

  lemma {:induction false} LedgerStep(s: State, e: Event)
    requires Sound(s) && Enabled(s, e)
    ensures Ledger(Apply(s, e))
  {
    if !TouchesQueue(e) {
      LedgerQuietStep(s, e);
    } else {
      match e
      case Deferral(k) => LedgerAfterOffer(s, k);
      case Take(t) => LedgerAfterTake(s);
      case SendOk(t) => LedgerAfterSend(s);
      case SendFailed(t) => LedgerAfterSendFailed(s);
      case CleanUp(t) => LedgerAfterCleanUp(s);
    }
  }

  lemma {:induction false} SoundStep(s: State, e: Event)
    requires Sound(s) && Enabled(s, e)
    ensures Sound(Apply(s, e))
  {
    OneFlusherStep(s, e);
    LedgerStep(s, e);
  }

  // ------------------------------------------------- how one fate may change

  /** A settled fate never changes; a waiting update is held, coalesced, superseded,
      dropped or detached, and a held one is delivered or detached. */
  predicate MayBecome(f: Fate, g: Fate) {
    || g == f
    || (f == Waiting && g != Delivered)
    || (f == Held && (g == Delivered || g == Detached))
  }

  lemma {:induction false} EntryAfterOffer(s: State, b: Branch, k: Kind, i: nat)
    requires Ledger(s) && i <= |s.fate|
    requires b.Coalesce? ==> b.position < |s.d.queue| && SameReplaceableState(s.d.queue[b.position].kind, k)
    requires b.Evict? ==> b.position < |s.d.queue| && !IsPriority(s.d.queue[b.position].kind)
    ensures var f := FateAfterOffer(s, b);
            && |f| == |s.fate| + 1
            && (i == |s.fate| ==> f[i] == if b == Refuse then Dropped(i, s.emitted, |s.sent|) else Waiting)
            && (i < |s.fate| && f[i] != s.fate[i] ==> s.fate[i] == Waiting && !IsPriority(s.offered[i]))
            && (i < |s.fate| && f[i] != s.fate[i] ==>
                  || (b == Supersede && f[i] == Taken(s.offered[i], |s.fate|))
                  || (b.Coalesce? && f[i] == Coalesced(|s.fate|) && s.offered[i] == k)
                  || (b.Evict? && f[i] == Dropped(|s.fate|, s.emitted, |s.sent|)))
  {
    match b
    case Coalesce(p) => assert Genuine(s, s.d.queue[p], Waiting);
    case Evict(p) => assert Genuine(s, s.d.queue[p], Waiting);
    case _ =>
  }

  lemma {:induction false} OfferFates(s: State, k: Kind, i: nat)
    requires Ledger(s) && i <= |s.fate|
    ensures var g, b := AfterDeferral(s, k).fate, BranchOf(s.d.queue, k);
            && |g| == |s.fate| + 1
            && (i == |s.fate| ==> g[i] == if b == Refuse then Dropped(i, s.emitted, |s.sent|) else Waiting)
            && (i < |s.fate| && g[i] != s.fate[i] ==> s.fate[i] == Waiting && !IsPriority(s.offered[i]))
            && (i < |s.fate| && g[i] != s.fate[i] ==>
                  || (k == Snapshot && g[i] == Taken(s.offered[i], |s.fate|))
                  || (g[i] == Coalesced(|s.fate|) && s.offered[i] == k)
                  || (b.Evict? && g[i] == Dropped(|s.fate|, s.emitted, |s.sent|)))
  {
    EntryAfterOffer(s, BranchOf(s.d.queue, k), k, i);
  }

  lemma {:induction false} FlusherFates(s: State, e: Event, i: nat)
    requires Sound(s) && Enabled(s, e) && TouchesQueue(e) && !e.Deferral? && i < |s.fate|
    ensures var g := Apply(s, e).fate;
            && |g| == |s.fate| && MayBecome(s.fate[i], g[i]) && g[i].Dropped? == s.fate[i].Dropped?
            && (s.fate[i] == Waiting && s.open ==> g[i] == Waiting || g[i] == Held)
  {
    if e.Take? && s.d.queue != [] {
      assert Genuine(s, s.d.queue[0], Waiting);
    } else if e.SendOk? || e.SendFailed? {
      assert Genuine(s, s.tasks[0].item, Held);
    }
  }

  /** Fates settle once.  A waiting CommandResult or BackendStopped can only be
      popped by the flusher while the receiver is there. */
  lemma {:induction false} FateStep(s: State, e: Event, i: nat)
    requires Sound(s) && Enabled(s, e) && i < |s.fate|
    ensures |Apply(s, e).fate| >= |s.fate| && MayBecome(s.fate[i], Apply(s, e).fate[i])
    ensures IsPriority(s.offered[i]) && s.fate[i] == Waiting && s.open ==>
              Apply(s, e).fate[i] == Waiting || Apply(s, e).fate[i] == Held
    ensures Apply(s, e).fate[i].Dropped? && Apply(s, e).fate[i] != s.fate[i] ==> e.Deferral?
  {
    if e.Deferral? {
      OfferFates(s, e.kind, i);
    } else if TouchesQueue(e) {
      FlusherFates(s, e, i);
    }
  }

  // ------------------------------------------------------- notice of a drop

  predicate LaterSnapshot(s: State, cause: nat, k: nat) {
    cause < k < |s.offered| && k < |s.fate| && s.offered[k] == Snapshot
    && (s.fate[k] == Waiting || s.fate[k] == Held || s.fate[k] == Delivered)
  }

  predicate SynthesizedOut(s: State, n: nat) {
    || (exists p :: 0 <= p < |s.sent| && s.sent[p].body == Synthesized(n))
    || (|s.tasks| == 1 && s.tasks[0].Sending? && s.tasks[0].item.body == Synthesized(n))
  }

  /** A drop is still flagged, or a resync made up since is out, or a Snapshot
      offered since is queued, held or delivered. */
  ghost predicate Noticed(s: State, f: Fate)
    requires f.Dropped?
  {
    s.d.resync || f.epoch < s.emitted || exists k :: LaterSnapshot(s, f.cause, k)
  }

  ghost predicate Notices(s: State) {
    && (forall i :: 0 <= i < |s.fate| && s.fate[i].Dropped? ==> Noticed(s, s.fate[i]))
    && (forall n :: 0 <= n < s.emitted ==> SynthesizedOut(s, n))
  }

  /** `mark` separates what was sent before a drop from any notice of it. */
  predicate Marks(s: State) {
    forall i :: 0 <= i < |s.fate| && s.fate[i].Dropped? ==> Marked(s, s.fate[i])
  }

  predicate NoticeOf(s: State, item: Item, f: Fate)
    requires f.Dropped?
  {
    match item.body
    case Synthesized(n) => f.epoch <= n
    case Offered(k) => f.cause < k && item.kind == Snapshot
    case Direct(_) => false
  }

  lemma {:induction false} MarksStep(s: State, e: Event)
    requires Sound(s) && Marks(s) && Enabled(s, e)
    ensures Marks(Apply(s, e))
  {
    forall i | 0 <= i < |Apply(s, e).fate| && Apply(s, e).fate[i].Dropped?
      ensures Marked(Apply(s, e), Apply(s, e).fate[i]) {
      MarkStep(s, e, i);
    }
  }

  predicate Marked(s: State, f: Fate)
    requires f.Dropped?
  {
    && f.mark <= |s.sent| && f.epoch <= s.emitted
    && forall p :: 0 <= p < |s.sent| && NoticeOf(s, s.sent[p], f) ==> f.mark <= p
  }

  lemma {:induction false} OldMark(s: State, e: Event, f: Fate)
    requires f.Dropped? && Marked(s, f) && Enabled(s, e)
    ensures Marked(Apply(s, e), f)
  {
    var s' := Apply(s, e);
    forall p | 0 <= p < |s'.sent| && NoticeOf(s', s'.sent[p], f) ensures f.mark <= p {
      if p < |s.sent| {
        assert s'.sent[p] == s.sent[p] && NoticeOf(s, s.sent[p], f);
      }
    }
  }

  lemma {:induction false} NewMark(s: State, k: Kind)
    requires Ledger(s)
    ensures Marked(AfterDeferral(s, k), Dropped(|s.fate|, s.emitted, |s.sent|))
  {
    forall p | 0 <= p < |s.sent|
      ensures !NoticeOf(AfterDeferral(s, k), s.sent[p], Dropped(|s.fate|, s.emitted, |s.sent|)) {
      assert Genuine(s, s.sent[p], Delivered);
    }
  }

  lemma OnlyOffersGrow(s: State, e: Event)
    requires Enabled(s, e) && !e.Deferral?
    ensures |Apply(s, e).fate| == |s.fate|
  {
  }

  lemma {:induction false} NewDropByOffer(s: State, k: Kind, i: nat)
    requires Ledger(s) && i < |AfterDeferral(s, k).fate| && AfterDeferral(s, k).fate[i].Dropped?
    requires i < |s.fate| ==> s.fate[i] != AfterDeferral(s, k).fate[i]
    ensures AfterDeferral(s, k).fate[i] == Dropped(|s.fate|, s.emitted, |s.sent|)
  {
    OfferFates(s, k, if i < |s.fate| then i else |s.fate|);
  }

  /** Nothing but an offer drops anything. */
  lemma {:induction false} OnlyOffersDrop(s: State, e: Event, i: nat)
    requires Sound(s) && Enabled(s, e) && !e.Deferral?
    ensures |Apply(s, e).fate| == |s.fate|
    ensures i < |s.fate| && Apply(s, e).fate[i].Dropped? ==> s.fate[i] == Apply(s, e).fate[i]
  {
    OnlyOffersGrow(s, e);
    if i < |s.fate| {
      FateStep(s, e, i);
    }
  }

  lemma {:induction false} MarkStep(s: State, e: Event, i: nat)
    requires Sound(s) && Marks(s) && Enabled(s, e)
    requires i < |Apply(s, e).fate| && Apply(s, e).fate[i].Dropped?
    ensures Marked(Apply(s, e), Apply(s, e).fate[i])
  {
    var f := Apply(s, e).fate[i];
    if i < |s.fate| && s.fate[i] == f {
      OldMark(s, e, f);
    } else {
      if !e.Deferral? {
        OnlyOffersDrop(s, e, i);
      }
      NewDropByOffer(s, e.kind, i);
      NewMark(s, e.kind);
    }
  }

  lemma {:induction false} SynthesizedStep(s: State, e: Event, n: nat)
    requires Sound(s) && Enabled(s, e) && Apply(s, e).open && n < Apply(s, e).emitted
    requires n < s.emitted ==> SynthesizedOut(s, n)
    ensures SynthesizedOut(Apply(s, e), n)
  {
    var s' := Apply(s, e);
    if n < s.emitted {
      if p :| 0 <= p < |s.sent| && s.sent[p].body == Synthesized(n) {
        assert s'.sent[p].body == Synthesized(n);
      } else if e.SendOk? {
        assert s'.sent[|s.sent|].body == Synthesized(n);
      }
    }
  }

  lemma {:induction false} NewDropNoticed(s: State, k: Kind, i: nat)
    requires Sound(s) && i <= |s.fate| && AfterDeferral(s, k).fate[i].Dropped?
    requires i < |s.fate| ==> !s.fate[i].Dropped?
    ensures AfterDeferral(s, k).d.resync
  {
    OfferFates(s, k, i);
  }

  lemma {:induction false} OldDropNoticed(s: State, e: Event, f: Fate)
    requires Sound(s) && Enabled(s, e) && Apply(s, e).open
    requires f.Dropped? && f.cause < |s.fate| && f.epoch <= s.emitted && Noticed(s, f)
    ensures Noticed(Apply(s, e), f)
  {
    var s' := Apply(s, e);
    if e.Deferral? && e.kind == Snapshot {
      OfferFates(s, e.kind, |s.fate|);
      assert LaterSnapshot(s', f.cause, |s.fate|);
    } else if k :| LaterSnapshot(s, f.cause, k) {
      SnapshotKept(s, e, f.cause, k);
    }
  }

  lemma {:induction false} NoticeStep(s: State, e: Event, i: nat)
    requires Sound(s) && Notices(s) && Marks(s) && Enabled(s, e) && Apply(s, e).open
    requires i < |Apply(s, e).fate| && Apply(s, e).fate[i].Dropped?
    ensures Noticed(Apply(s, e), Apply(s, e).fate[i])
  {
    if i < |s.fate| {
      FateStep(s, e, i);
    }
    if i < |s.fate| && s.fate[i].Dropped? {
      assert Justified(s, i);
      OldDropNoticed(s, e, s.fate[i]);
    } else {
      NewDropNoticed(s, e.kind, i);
    }
  }

  lemma {:induction false} NoticesStep(s: State, e: Event)
    requires Sound(s) && Notices(s) && Marks(s) && Enabled(s, e) && Apply(s, e).open
    ensures Notices(Apply(s, e))
  {
    var s' := Apply(s, e);
    forall n | 0 <= n < s'.emitted ensures SynthesizedOut(s', n) {
      SynthesizedStep(s, e, n);
    }
    forall i | 0 <= i < |s'.fate| && s'.fate[i].Dropped? ensures Noticed(s', s'.fate[i]) {
      NoticeStep(s, e, i);
    }
  }

  /** A Snapshot that is out stays out, unless it is evicted and a resync flagged. */
  lemma {:induction false} SnapshotKept(s: State, e: Event, cause: nat, k: nat)
    requires Sound(s) && Enabled(s, e) && Apply(s, e).open && LaterSnapshot(s, cause, k)
    requires !(e.Deferral? && e.kind == Snapshot)
    ensures Apply(s, e).d.resync || LaterSnapshot(Apply(s, e), cause, k)
  {
    FateStep(s, e, k);
    LedgerStep(s, e);
    if e.Deferral? {
      OfferFates(s, e.kind, k);
    }
    assert Justified(Apply(s, e), k);
  }

  // --------------------------------------------------------- priority order

  /** The offered CommandResult and BackendStopped updates among `items`. */
  function PriorityOffers(items: seq<Item>): seq<Item> {
    if items == [] then []
    else (if IsPriority(items[0].kind) && items[0].body.Offered? then [items[0]] else []) + PriorityOffers(items[1..])
  }

  function HeldItems(s: State): seq<Item> {
    if |s.tasks| == 1 && s.tasks[0].Sending? then [s.tasks[0].item] else []
  }

  function Pipeline(s: State): seq<Item> {
    s.sent + HeldItems(s) + s.d.queue
  }

  /** The priority offers that were not refused, in the order they were made. */
  function Accepted(offered: seq<Kind>, fate: seq<Fate>): seq<Item>
    requires |offered| == |fate|
  {
    if fate == [] then []
    else
      var n := |fate| - 1;
      Accepted(offered[..n], fate[..n])
      + if IsPriority(offered[n]) && !fate[n].Dropped? then [Update(offered[n], Offered(n))] else []
  }

  /** Sent, then held, then queued: the accepted priority offers, each once, in order. */
  predicate InOrder(s: State)
    requires |s.offered| == |s.fate|
  {
    PriorityOffers(Pipeline(s)) == Accepted(s.offered, s.fate)
  }

  lemma {:induction false} PriorityOffersConcat(a: seq<Item>, b: seq<Item>)
    ensures PriorityOffers(a + b) == PriorityOffers(a) + PriorityOffers(b)
  {
    if a == [] {
      assert a + b == b;
    } else {
      assert (a + b)[0] == a[0] && (a + b)[1..] == a[1..] + b;
      PriorityOffersConcat(a[1..], b);
    }
  }

  lemma {:induction false} PriorityOffersOfQueue(q: seq<Item>)
    requires forall p :: 0 <= p < |q| ==> q[p].body.Offered?
    ensures PriorityOffers(q) == Priorities(q)
  {
    if q != [] {
      PriorityOffersOfQueue(q[1..]);
    }
  }

  lemma {:induction false} AcceptedDependsOnRefusals(offered: seq<Kind>, f: seq<Fate>, g: seq<Fate>)
    requires |offered| == |f| == |g|
    requires forall i :: 0 <= i < |f| && IsPriority(offered[i]) ==> f[i].Dropped? == g[i].Dropped?
    ensures Accepted(offered, f) == Accepted(offered, g)
  {
    if f != [] {
      AcceptedDependsOnRefusals(offered[..|f| - 1], f[..|f| - 1], g[..|f| - 1]);
    }
  }

  lemma {:induction false} AcceptedAfterOffer(s: State, k: Kind)
    requires Ledger(s)
    ensures var s' := AfterDeferral(s, k);
            && |s'.fate| == |s'.offered|
            && Accepted(s'.offered, s'.fate) == Accepted(s.offered, s.fate)
               + if IsPriority(k) && !Refused(s.d.queue, k) then [Update(k, Offered(|s.offered|))] else []
  {
    var s', n := AfterDeferral(s, k), |s.fate|;
    OfferFates(s, k, n);
    forall i | 0 <= i < n && IsPriority(s.offered[i]) ensures s'.fate[i].Dropped? == s.fate[i].Dropped? {
      OfferFates(s, k, i);
    }
    assert s'.offered[..n] == s.offered;
    AcceptedDependsOnRefusals(s.offered, s.fate, s'.fate[..n]);
  }

  lemma {:induction false} PipelineAfterOffer(s: State, k: Kind)
    requires OneFlusher(s) && Ledger(s) && Ledger(AfterDeferral(s, k))
    ensures PriorityOffers(Pipeline(AfterDeferral(s, k))) == PriorityOffers(Pipeline(s))
            + if IsPriority(k) && !Refused(s.d.queue, k) then [Update(k, Offered(|s.offered|))] else []
  {
    var s' := AfterDeferral(s, k);
    assert HeldItems(s') == HeldItems(s);
    PriorityRetention(s.d, Update(k, Offered(|s.offered|)));
    PriorityOffersOfQueue(s.d.queue);
    PriorityOffersOfQueue(s'.d.queue);
    ConcatTails(s.sent + HeldItems(s), s.d.queue, s'.d.queue,
                if IsPriority(k) && !Refused(s.d.queue, k) then [Update(k, Offered(|s.offered|))] else []);
  }

  lemma ConcatTails(head: seq<Item>, a: seq<Item>, b: seq<Item>, more: seq<Item>)
    requires PriorityOffers(b) == PriorityOffers(a) + more
    ensures PriorityOffers(head + b) == PriorityOffers(head + a) + more
  {
    PriorityOffersConcat(head, a);
    PriorityOffersConcat(head, b);
  }

  lemma {:induction false} OrderAfterOffer(s: State, k: Kind)
    requires Sound(s) && InOrder(s)
    ensures Ledger(AfterDeferral(s, k)) && InOrder(AfterDeferral(s, k))
  {
    LedgerAfterOffer(s, k);
    PipelineAfterOffer(s, k);
    AcceptedAfterOffer(s, k);
  }

  lemma {:induction false} AcceptedWithoutOffer(s: State, e: Event)
    requires Sound(s) && Enabled(s, e) && !e.Deferral?
    ensures |Apply(s, e).fate| == |Apply(s, e).offered|
    ensures Accepted(Apply(s, e).offered, Apply(s, e).fate) == Accepted(s.offered, s.fate)
  {
    forall i | 0 <= i < |s.fate| ensures Apply(s, e).fate[i].Dropped? == s.fate[i].Dropped? {
      FateStep(s, e, i);
    }
    assert |Apply(s, e).fate| == |s.fate|;
    AcceptedDependsOnRefusals(s.offered, s.fate, Apply(s, e).fate);
  }

  lemma {:induction false} Inserted(a: seq<Item>, x: Item, b: seq<Item>)
    requires !x.body.Offered?
    ensures PriorityOffers(a + [x] + b) == PriorityOffers(a + b)
  {
    PriorityOffersConcat(a + [x], b);
    PriorityOffersConcat(a, [x]);
    PriorityOffersConcat(a, b);
    assert [x][1..] == [];
  }

  lemma {:induction false} PipelineAfterTake(s: State)
    requires OneFlusher(s) && Enabled(s, Take(0))
    ensures PriorityOffers(Pipeline(AfterTake(s, 0))) == PriorityOffers(Pipeline(s))
  {
    var s' := AfterTake(s, 0);
    if s.d.queue != [] {
      assert Pipeline(s') == Pipeline(s);
    } else if s.d.resync {
      Inserted(s.sent, Update(ResyncRequired, Synthesized(s.emitted)), []);
      assert Pipeline(s') == s.sent + [Update(ResyncRequired, Synthesized(s.emitted))] + [];
      assert Pipeline(s) == s.sent + [];
    } else {
      assert s'.tasks == [];
      assert Pipeline(s') == Pipeline(s);
    }
  }

  lemma {:induction false} PipelineAfterDirect(s: State, s': State, k: Kind)
    requires s'.sent == s.sent + [Update(k, Direct(|s.offered|))] && s'.tasks == s.tasks && s'.d == s.d
    ensures PriorityOffers(Pipeline(s')) == PriorityOffers(Pipeline(s))
  {
    Inserted(s.sent, Update(k, Direct(|s.offered|)), HeldItems(s) + s.d.queue);
    assert Pipeline(s') == s.sent + [Update(k, Direct(|s.offered|))] + (HeldItems(s) + s.d.queue);
    assert Pipeline(s) == s.sent + (HeldItems(s) + s.d.queue);
  }

  lemma {:induction false} PipelineWithoutOffer(s: State, e: Event)
    requires OneFlusher(s) && Enabled(s, e) && !e.Deferral? && !e.CleanUp? && !e.SendFailed?
    ensures PriorityOffers(Pipeline(Apply(s, e))) == PriorityOffers(Pipeline(s))
  {
    if e.Take? {
      PipelineAfterTake(s);
    } else if e.SendOk? {
      assert Pipeline(Apply(s, e)) == Pipeline(s);
    } else if e.PublishSent? || e.CriticalSent? {
      PipelineAfterDirect(s, Apply(s, e), e.kind);
    }
  }

  lemma {:induction false} OrderWithoutOffer(s: State, e: Event)
    requires Sound(s) && InOrder(s) && Enabled(s, e) && !e.Deferral? && Apply(s, e).open
    ensures Ledger(Apply(s, e)) && InOrder(Apply(s, e))
  {
    LedgerStep(s, e);
    AcceptedWithoutOffer(s, e);
    PipelineWithoutOffer(s, e);
  }

  // -------------------------------------------------------------- every run

  function Snapshots(offered: seq<Kind>): nat {
    if offered == [] then 0
    else Snapshots(offered[..|offered| - 1]) + if offered[|offered| - 1] == Snapshot then 1 else 0
  }

  predicate Bounded(s: State) {
    |s.d.queue| <= DEFERRED_CRITICAL_CAPACITY + Snapshots(s.offered)
  }

  ghost predicate Good(s: State) {
    && Sound(s) && Marks(s) && WellShaped(s.d.queue) && Bounded(s)
    && (s.open ==> Notices(s) && InOrder(s))
  }

  lemma {:induction false} BoundedAfterOffer(s: State, k: Kind)
    requires Bounded(s)
    ensures Bounded(AfterDeferral(s, k))
  {
    OfferGrowth(s.d, Update(k, Offered(|s.offered|)));
    assert AfterDeferral(s, k).offered[..|s.offered|] == s.offered;
  }

  lemma {:induction false} QueueLimitsStep(s: State, e: Event)
    requires WellShaped(s.d.queue) && Bounded(s) && Enabled(s, e)
    ensures WellShaped(Apply(s, e).d.queue) && Bounded(Apply(s, e))
  {
    if e.Deferral? {
      ShapeKept(s.d, Update(e.kind, Offered(|s.offered|)));
      BoundedAfterOffer(s, e.kind);
    }
  }

  lemma {:induction false} GoodStep(s: State, e: Event)
    requires Good(s) && Enabled(s, e)
    ensures Good(Apply(s, e))
  {
    SoundStep(s, e);
    MarksStep(s, e);
    QueueLimitsStep(s, e);
    if Apply(s, e).open {
      NoticesStep(s, e);
      if e.Deferral? {
        OrderAfterOffer(s, e.kind);
      } else {
        OrderWithoutOffer(s, e);
      }
    }
  }

  lemma {:induction false} GoodRun(s: State, es: seq<Event>)
    requires Good(s) && Legal(s, es)
    ensures Good(Final(s, es))
    decreases |es|
  {
    if es != [] {
      GoodStep(s, es[0]);
      GoodRun(Apply(s, es[0]), es[1..]);
    }
  }

  lemma StartIsGood()
    ensures Good(INIT)
  {
  }

  lemma ReachableIsGood(es: seq<Event>, s: State)
    requires Legal(INIT, es) && s == Final(INIT, es)
    ensures Good(s)
  {
    StartIsGood();
    GoodRun(INIT, es);
  }

  /** Exactly one flusher task exists while `flushing`, none otherwise, and no queued
      update or flagged resync is ever left without one. */
  lemma ExactlyOneFlusher(es: seq<Event>)
    requires Legal(INIT, es)
    ensures var s := Final(INIT, es);
            && |s.tasks| == (if s.d.flushing then 1 else 0)
            && (s.d.queue != [] || s.d.resync ==> |s.tasks| == 1)
  {
    ReachableIsGood(es, Final(INIT, es));
  }

  /** The ledger says where offer i is or why it is gone; it is never in two places or
      twice in one; and if it was dropped, that is noticed. */
  ghost predicate Accounted(s: State, i: nat)
    requires i < |s.fate| == |s.offered|
  {
    && (s.fate[i] == Waiting <==> InQueue(s, i))
    && (s.fate[i] == Held <==> InFlight(s, i))
    && (s.fate[i] == Delivered <==> InChannelHistory(s, i))
    && s.fate[i] != Detached && Justified(s, i)
    && (s.fate[i].Dropped? ==> Noticed(s, s.fate[i]))
    && (forall p, r :: 0 <= p < r < |s.sent| && s.sent[p].body == Offered(i) ==> s.sent[r].body != Offered(i))
    && (forall p, r :: 0 <= p < r < |s.d.queue| && s.d.queue[p].body == Offered(i) ==> s.d.queue[r].body != Offered(i))
  }

  lemma {:induction false} GoodAccounts(s: State, i: nat)
    requires Good(s) && s.open && i < |s.fate|
    ensures Accounted(s, i)
  {
    assert Justified(s, i);
    if InQueue(s, i) {
      var p :| 0 <= p < |s.d.queue| && s.d.queue[p].body == Offered(i);
      assert Genuine(s, s.d.queue[p], Waiting);
    }
    if InFlight(s, i) {
      assert Genuine(s, s.tasks[0].item, Held);
    }
    if InChannelHistory(s, i) {
      var p :| 0 <= p < |s.sent| && s.sent[p].body == Offered(i);
      assert Genuine(s, s.sent[p], Delivered);
    }
  }

  /** While the receiver is there, every update ever offered to the queue is accounted for. */
  lemma NoUnaccountedLoss(es: seq<Event>, i: nat)
    requires Legal(INIT, es) && Final(INIT, es).open && i < |Final(INIT, es).offered|
    ensures |Final(INIT, es).fate| == |Final(INIT, es).offered| && Accounted(Final(INIT, es), i)
  {
    ReachableIsGood(es, Final(INIT, es));
    GoodAccounts(Final(INIT, es), i);
  }

  predicate SentAfter(s: State, f: Fate, p: nat)
    requires f.Dropped?
  {
    f.mark <= p < |s.sent| && NoticeOf(s, s.sent[p], f)
  }

  ghost predicate Settled(s: State, f: Fate) {
    f == Delivered || f.Coalesced? || f.Superseded? || f.Lost? || (f.Dropped? && exists p :: SentAfter(s, f, p))
  }

  lemma {:induction false} IdleSettles(s: State, i: nat)
    requires Good(s) && s.open && !s.d.flushing && i < |s.fate|
    ensures Settled(s, s.fate[i])
  {
    GoodAccounts(s, i);
    var f := s.fate[i];
    if f.Dropped? {
      if f.epoch < s.emitted {
        assert SynthesizedOut(s, f.epoch);
        var p :| 0 <= p < |s.sent| && s.sent[p].body == Synthesized(f.epoch);
        assert SentAfter(s, f, p);
      } else {
        var k :| LaterSnapshot(s, f.cause, k);
        GoodAccounts(s, k);
        var p :| 0 <= p < |s.sent| && s.sent[p].body == Offered(k);
        assert Genuine(s, s.sent[p], Delivered);
        assert SentAfter(s, f, p);
      }
    }
  }

  lemma {:induction false} SentPrefix(s: State)
    requires |s.fate| == |s.offered| && InOrder(s)
    ensures PriorityOffers(s.sent) <= Accepted(s.offered, s.fate)
    ensures HeldItems(s) == [] && s.d.queue == [] ==> PriorityOffers(s.sent) == Accepted(s.offered, s.fate)
  {
    var rest := HeldItems(s) + s.d.queue;
    PriorityOffersConcat(s.sent, rest);
    assert Pipeline(s) == s.sent + rest;
  }

  /** What the channel delivered of the priority offers is a prefix of the accepted
      ones, and all of them once the flusher is idle. */
  lemma PrioritiesDeliveredInOrder(es: seq<Event>)
    requires Legal(INIT, es) && Final(INIT, es).open
    ensures var s := Final(INIT, es);
            && |s.fate| == |s.offered|
            && PriorityOffers(s.sent) <= Accepted(s.offered, s.fate)
            && (!s.d.flushing ==> PriorityOffers(s.sent) == Accepted(s.offered, s.fate))
  {
    ReachableIsGood(es, Final(INIT, es));
    SentPrefix(Final(INIT, es));
  }

  /** Queue limits in every run: the Snapshot branch is the only way past the capacity. */
  lemma QueueLimits(es: seq<Event>)
    requires Legal(INIT, es)
    ensures var s := Final(INIT, es);
            WellShaped(s.d.queue) && |s.d.queue| <= DEFERRED_CRITICAL_CAPACITY + Snapshots(s.offered)
  {
    ReachableIsGood(es, Final(INIT, es));
  }

  /** A settled fate is settled for good: in particular nothing coalesced, superseded or
      dropped is ever delivered later. */
  lemma {:induction false} SettledForGood(s: State, es: seq<Event>, i: nat)
    requires Good(s) && Legal(s, es) && i < |s.fate| && s.fate[i] != Waiting && s.fate[i] != Held
    ensures i < |Final(s, es).fate| && Final(s, es).fate[i] == s.fate[i]
    decreases |es|
  {
    if es != [] {
      GoodStep(s, es[0]);
      FateStep(s, es[0], i);
      SettledForGood(Apply(s, es[0]), es[1..], i);
    }
  }
}
