/** The lossy, coalescing, priority-evicting queue behind the Desktop projection
    (`DeferredDelivery` and `queue_deferred_update`).

    An update is a kind and a body.  The code never inspects a body here, so a
    body is represented by what identifies it: where the update came from. */
module DeferredQueue {

  datatype Kind =
    | Vision | Snapshot | Navigation | Layout | Settings | SettingsDraft
    | SettingsReceipt | AttachmentStaged | Observation | HostObservation
    | CommandResult | ResyncRequired | BackendStopped

  datatype Origin = Direct(offers: nat) | Offered(index: nat) | Synthesized(number: nat)

  datatype Update = Update(kind: Kind, body: Origin)

  const DEFERRED_CRITICAL_CAPACITY := 64

  predicate IsPriority(kind: Kind) {
    kind == CommandResult || kind == BackendStopped
  }

  predicate SameReplaceableState(left: Kind, right: Kind) {
    left == right && (left == Navigation || left == Layout || left == Settings || left == SettingsDraft)
  }

  /** The fields of DesktopSnapshot restate these kinds; the others are not in it. */
  predicate SnapshotCarries(kind: Kind) {
    kind != Vision && kind != SettingsDraft && kind != SettingsReceipt && kind != AttachmentStaged
  }

  /** The value of a DeferredDelivery object. */
  datatype Delivery = Delivery(queue: seq<Update>, flushing: bool, resync: bool)

  /** What `retain(is_priority_update)` keeps. */
  function Priorities(q: seq<Update>): seq<Update> {
    if q == [] then []
    else (if IsPriority(q[0].kind) then [q[0]] else []) + Priorities(q[1..])
  }

  predicate HasReplaceable(q: seq<Update>, kind: Kind) {
    exists p :: 0 <= p < |q| && SameReplaceableState(q[p].kind, kind)
  }

  /** The last queued entry `kind` replaces. */
  function ReplaceablePosition(q: seq<Update>, kind: Kind): (p: nat)
    requires HasReplaceable(q, kind)
    ensures p < |q| && SameReplaceableState(q[p].kind, kind)
    ensures forall r :: p < r < |q| ==> !SameReplaceableState(q[r].kind, kind)
  {
    if SameReplaceableState(q[|q| - 1].kind, kind) then |q| - 1
    else ReplaceablePosition(q[..|q| - 1], kind)
  }

  predicate AllPriority(q: seq<Update>) {
    forall p :: 0 <= p < |q| ==> IsPriority(q[p].kind)
  }

  /** The entry a priority update evicts: the oldest non-priority one. */
  function EvictedPosition(q: seq<Update>): (p: nat)
    requires !AllPriority(q)
    ensures p < |q| && !IsPriority(q[p].kind)
    ensures forall r :: 0 <= r < p ==> IsPriority(q[r].kind)
  {
    if !IsPriority(q[0].kind) then 0 else EvictedPosition(q[1..]) + 1
  }

  /** Which branch of `queue_deferred_update` an offer takes. */
  datatype Branch = Supersede | Coalesce(position: nat) | Append | Evict(position: nat) | Refuse

  function BranchOf(q: seq<Update>, kind: Kind): Branch {
    if kind == Snapshot then Supersede
    else if HasReplaceable(q, kind) then Coalesce(ReplaceablePosition(q, kind))
    else if |q| < DEFERRED_CRITICAL_CAPACITY then Append
    else if IsPriority(kind) && !AllPriority(q) then Evict(EvictedPosition(q))
    else Refuse
  }

  function Queued(d: Delivery, u: Update): Delivery {
    match BranchOf(d.queue, u.kind)
    case Supersede => d.(queue := Priorities(d.queue) + [u], resync := false)
    case Coalesce(p) => d.(queue := d.queue[p := u])
    case Append => d.(queue := d.queue + [u])
    case Evict(p) => d.(queue := d.queue[..p] + d.queue[p + 1..] + [u], resync := true)
    case Refuse => d.(resync := true)
  }

  /** What one critical section of the flusher hands to its send. */
  datatype Next = Send(update: Update) | SendResync | Idle

  function NextOf(d: Delivery): Next {
    if d.queue != [] then Send(d.queue[0]) else if d.resync then SendResync else Idle
  }

  function AfterNext(d: Delivery): Delivery {
    if d.queue != [] then d.(queue := d.queue[1..])
    else if d.resync then d.(resync := false)
    else d.(flushing := false)
  }

  function Cleared(): Delivery {
    Delivery([], false, false)
  }

  /** The object the bridge and the flusher share behind one mutex. */
  class DeferredDelivery {
    var queue: seq<Update>
    var flushing: bool
    var resyncRequired: bool

    ghost function View(): Delivery
      reads this
    {
      Delivery(queue, flushing, resyncRequired)
    }

    constructor ()
      ensures View() == Cleared()
    {
      queue, flushing, resyncRequired := [], false, false;
    }

    /** `queue_deferred_update`. */
    method QueueUpdate(u: Update)
      modifies this
      ensures View() == Queued(old(View()), u)
    {
      if u.kind == Snapshot {
        queue, resyncRequired := Priorities(queue) + [u], false;
        return;
      }
      var p := |queue|;
      while p > 0 && !SameReplaceableState(queue[p - 1].kind, u.kind)
        invariant 0 <= p <= |queue|
        invariant forall r :: p <= r < |queue| ==> !SameReplaceableState(queue[r].kind, u.kind)
      {
        p := p - 1;
      }
      if p > 0 {
        queue := queue[p - 1 := u];
        return;
      }
      if |queue| < DEFERRED_CRITICAL_CAPACITY {
        queue := queue + [u];
        return;
      }
      if IsPriority(u.kind) {
        var e := 0;
        while e < |queue| && IsPriority(queue[e].kind)
          invariant 0 <= e <= |queue|
          invariant forall r :: 0 <= r < e ==> IsPriority(queue[r].kind)
        {
          e := e + 1;
        }
        if e < |queue| {
          queue := queue[..e] + queue[e + 1..] + [u];
          resyncRequired := true;
          return;
        }
      }
      resyncRequired := true;
    }

    /** The critical section of `defer_critical`; `spawn` says the caller must start the flusher. */
    method Defer(u: Update) returns (spawn: bool)
      modifies this
      ensures View() == Queued(old(View()), u).(flushing := true)
      ensures spawn == !old(flushing)
    {
      QueueUpdate(u);
      spawn := !flushing;
      flushing := true;
    }

    /** The critical section at the head of the flusher's loop. */
    method TakeNext() returns (next: Next)
      modifies this
      ensures next == NextOf(old(View())) && View() == AfterNext(old(View()))
    {
      if queue != [] {
        next, queue := Send(queue[0]), queue[1..];
      } else if resyncRequired {
        next, resyncRequired := SendResync, false;
      } else {
        next, flushing := Idle, false;
      }
    }

    /** The flusher's exit when the receiver is gone. */
    method Abandon()
      modifies this
      ensures View() == Cleared()
    {
      queue, flushing, resyncRequired := [], false, false;
    }
  }

  // ---------------------------------------------------------------- retention

  lemma {:induction false} PrioritiesConcat(a: seq<Update>, b: seq<Update>)
    ensures Priorities(a + b) == Priorities(a) + Priorities(b)
  {
    if a == [] {
      assert a + b == b;
    } else {
      PrioritiesConcat(a[1..], b);
      assert (a + b)[1..] == a[1..] + b;
    }
  }

  lemma PrioritiesSingle(u: Update)
    ensures Priorities([u]) == if IsPriority(u.kind) then [u] else []
  {
    assert [u][1..] == [];
  }

  lemma {:induction false} PrioritiesIdempotent(q: seq<Update>)
    ensures AllPriority(Priorities(q)) && Priorities(Priorities(q)) == Priorities(q)
    ensures |Priorities(q)| <= |q|
    ensures |Priorities(q)| == |q| <==> AllPriority(q)
  {
    if q != [] {
      PrioritiesIdempotent(q[1..]);
      PrioritiesSingle(q[0]);
      var head := if IsPriority(q[0].kind) then [q[0]] else [];
      PrioritiesConcat(head, Priorities(q[1..]));
      assert AllPriority(q) <==> IsPriority(q[0].kind) && AllPriority(q[1..]) by {
        if IsPriority(q[0].kind) && AllPriority(q[1..]) {
          forall p | 0 <= p < |q| ensures IsPriority(q[p].kind) {
            if p > 0 { assert q[1..][p - 1] == q[p]; }
          }
        }
      }
    }
  }

  predicate Refused(q: seq<Update>, kind: Kind) {
    BranchOf(q, kind) == Refuse
  }

  lemma {:induction false} PrioritiesAround(a: seq<Update>, u: Update, b: seq<Update>)
    ensures Priorities(a + [u] + b) == Priorities(a) + (if IsPriority(u.kind) then [u] else []) + Priorities(b)
  {
    PrioritiesConcat(a + [u], b);
    PrioritiesConcat(a, [u]);
    PrioritiesSingle(u);
  }

  lemma {:induction false} RetainedWhenCoalesced(q: seq<Update>, p: nat, u: Update)
    requires p < |q| && !IsPriority(q[p].kind) && !IsPriority(u.kind)
    ensures Priorities(q[p := u]) == Priorities(q)
  {
    var a, b := q[..p], q[p + 1..];
    PrioritiesAround(a, q[p], b);
    PrioritiesAround(a, u, b);
    assert q == a + [q[p]] + b && q[p := u] == a + [u] + b;
  }

  lemma {:induction false} RetainedWhenEvicted(q: seq<Update>, p: nat, u: Update)
    requires p < |q| && !IsPriority(q[p].kind) && IsPriority(u.kind)
    ensures Priorities(q[..p] + q[p + 1..] + [u]) == Priorities(q) + [u]
  {
    var a, b := q[..p], q[p + 1..];
    PrioritiesAround(a, q[p], b);
    PrioritiesAround(a + b, u, []);
    PrioritiesConcat(a, b);
    assert q == a + [q[p]] + b && a + b + [u] == a + b + [u] + [];
  }

  lemma RetainedWhenAppended(q: seq<Update>, u: Update)
    ensures Priorities(q + [u]) == Priorities(q) + if IsPriority(u.kind) then [u] else []
  {
    PrioritiesConcat(q, [u]);
    PrioritiesSingle(u);
  }

  lemma RetainedWhenSuperseded(q: seq<Update>, u: Update)
    ensures Priorities(Priorities(q) + [u]) == Priorities(q) + if IsPriority(u.kind) then [u] else []
  {
    PrioritiesIdempotent(q);
    RetainedWhenAppended(Priorities(q), u);
  }

  /** A queued CommandResult or BackendStopped survives every offer, in order, and
      a priority offer joins the end exactly when it is not refused. */
  lemma {:induction false} PriorityRetention(d: Delivery, u: Update)
    ensures Priorities(Queued(d, u).queue)
         == Priorities(d.queue) + if IsPriority(u.kind) && !Refused(d.queue, u.kind) then [u] else []
  {
    match BranchOf(d.queue, u.kind)
    case Supersede => RetainedWhenSuperseded(d.queue, u);
    case Coalesce(p) =>
      RetainedWhenCoalesced(d.queue, p, u);
    case Append => RetainedWhenAppended(d.queue, u);
    case Evict(p) =>
      RetainedWhenEvicted(d.queue, p, u);
    case Refuse =>
  }

  /** A priority offer is refused exactly when the queue is full of priority updates. */
  lemma PriorityRefusal(q: seq<Update>, kind: Kind)
    requires IsPriority(kind)
    ensures Refused(q, kind) <==> |q| >= DEFERRED_CRITICAL_CAPACITY && AllPriority(q)
  {
  }

  // -------------------------------------------------------------- queue shape

  predicate Unrepeated(kind: Kind) {
    kind == Snapshot || SameReplaceableState(kind, kind)
  }

  /** At most one Snapshot and one of each coalescing kind is queued. */
  ghost predicate WellShaped(q: seq<Update>) {
    forall p, r :: 0 <= p < r < |q| && q[p].kind == q[r].kind ==> !Unrepeated(q[p].kind)
  }

  lemma {:induction false} ShapeWithoutReplacement(q: seq<Update>, u: Update)
    requires WellShaped(q)
    requires Unrepeated(u.kind) ==> forall p :: 0 <= p < |q| ==> q[p].kind != u.kind
    ensures WellShaped(q + [u])
  {
  }

  lemma {:induction false} ShapeAfterEviction(q: seq<Update>, e: nat)
    requires WellShaped(q) && e < |q|
    ensures WellShaped(q[..e] + q[e + 1..])
  {
    var rest := q[..e] + q[e + 1..];
    forall p | 0 <= p < |q| - 1 ensures rest[p] == q[if p < e then p else p + 1] {}
  }

  lemma {:induction false} ShapeAfterCoalescing(q: seq<Update>, e: nat, u: Update)
    requires WellShaped(q) && e < |q| && q[e].kind == u.kind
    ensures WellShaped(q[e := u])
  {
    assert forall p :: 0 <= p < |q| ==> q[e := u][p].kind == q[p].kind;
  }

  lemma {:induction false} ShapeKept(d: Delivery, u: Update)
    requires WellShaped(d.queue)
    ensures WellShaped(Queued(d, u).queue)
  {
    var q := d.queue;
    match BranchOf(q, u.kind)
    case Supersede =>
      PrioritiesIdempotent(q);
      ShapeWithoutReplacement(Priorities(q), u);
    case Coalesce(e) =>
      ShapeAfterCoalescing(q, e, u);
    case Append =>
      ShapeWithoutReplacement(q, u);
    case Evict(e) =>
      ShapeAfterEviction(q, e);
      ShapeWithoutReplacement(q[..e] + q[e + 1..], u);
    case Refuse =>
  }

  /** The capacity test guards every branch but the Snapshot one. */
  lemma OfferGrowth(d: Delivery, u: Update)
    ensures var n := |Queued(d, u).queue|;
            if u.kind == Snapshot then 1 <= n <= |d.queue| + 1
            else n <= if |d.queue| < DEFERRED_CRITICAL_CAPACITY then DEFERRED_CRITICAL_CAPACITY else |d.queue|
  {
    PrioritiesIdempotent(d.queue);
  }

  function QueuedAll(d: Delivery, us: seq<Update>): Delivery
    decreases |us|
  {
    if us == [] then d else QueuedAll(Queued(d, us[0]), us[1..])
  }

  /** n rounds of a Snapshot then a CommandResult. */
  function Alternating(n: nat, body: Origin): seq<Update> {
    if n == 0 then [] else [Update(Snapshot, body), Update(CommandResult, body)] + Alternating(n - 1, body)
  }

  lemma {:induction false} OneAlternation(d: Delivery, s: Update, c: Update)
    requires |d.queue| >= DEFERRED_CRITICAL_CAPACITY && AllPriority(d.queue)
    requires s.kind == Snapshot && c.kind == CommandResult
    ensures Queued(Queued(d, s), c).queue == d.queue + [c]
  {
    var q := Queued(d, s).queue;
    AllKept(d.queue);
    assert q == d.queue + [s];
    assert !IsPriority(q[|d.queue|].kind);
    assert BranchOf(q, c.kind) == Evict(|d.queue|);
    assert q[..|d.queue|] + q[|d.queue| + 1..] == d.queue;
  }

  /** While the consumer is stalled the queue has no bound: each alternation onto a
      full all-priority queue leaves it one longer and again all priority. */
  lemma {:induction false} AlternationGrowsWithoutBound(d: Delivery, n: nat, body: Origin)
    requires |d.queue| >= DEFERRED_CRITICAL_CAPACITY && AllPriority(d.queue)
    ensures var r := QueuedAll(d, Alternating(n, body));
            |r.queue| == |d.queue| + n && AllPriority(r.queue)
    decreases n
  {
    if n > 0 {
      var next := OneRound(d, body, Alternating(n - 1, body));
      AlternationGrowsWithoutBound(next, n - 1, body);
    }
  }

  lemma OneRound(d: Delivery, body: Origin, more: seq<Update>) returns (next: Delivery)
    requires |d.queue| >= DEFERRED_CRITICAL_CAPACITY && AllPriority(d.queue)
    ensures QueuedAll(d, [Update(Snapshot, body), Update(CommandResult, body)] + more) == QueuedAll(next, more)
    ensures |next.queue| == |d.queue| + 1 && AllPriority(next.queue)
  {
    var s, c := Update(Snapshot, body), Update(CommandResult, body);
    QueuedTwice(d, s, c, more);
    OneAlternation(d, s, c);
    next := Queued(Queued(d, s), c);
  }

  lemma QueuedTwice(d: Delivery, u: Update, v: Update, more: seq<Update>)
    ensures QueuedAll(d, [u, v] + more) == QueuedAll(Queued(Queued(d, u), v), more)
  {
    var us := [u, v] + more;
    assert us[1..] == [v] + more && us[1..][1..] == more;
  }

  lemma {:induction false} AllKept(q: seq<Update>)
    requires AllPriority(q)
    ensures Priorities(q) == q
  {
    if q != [] {
      AllKept(q[1..]);
    }
  }

  /** Sixty-four results reach the length the alternation starts from. */
  lemma {:induction false} ResultsFillTheQueue(d: Delivery, n: nat, body: Origin)
    requires |d.queue| + n <= DEFERRED_CRITICAL_CAPACITY && AllPriority(d.queue)
    ensures var r := QueuedAll(d, seq(n, _ => Update(CommandResult, body)));
            |r.queue| == |d.queue| + n && AllPriority(r.queue)
    decreases n
  {
    if n > 0 {
      var us := seq(n, _ => Update(CommandResult, body));
      assert us[1..] == seq(n - 1, _ => Update(CommandResult, body));
      ResultsFillTheQueue(Queued(d, us[0]), n - 1, body);
    }
  }

  /** A Snapshot silently takes every queued update it does not carry: the entry is
      gone and no resync is left to ask for it. */
  lemma SnapshotLosesUncarried(d: Delivery, p: nat, body: Origin)
    requires p < |d.queue| && !SnapshotCarries(d.queue[p].kind)
    ensures var r := Queued(d, Update(Snapshot, body));
            !r.resync && forall x :: x in r.queue ==> x.kind != d.queue[p].kind
  {
    PrioritiesIdempotent(d.queue);
    var r := Queued(d, Update(Snapshot, body));
    assert r.queue == Priorities(d.queue) + [Update(Snapshot, body)];
  }
}
