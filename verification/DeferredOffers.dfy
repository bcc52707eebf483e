/** What one offer does to the queue, kind by kind: stated over the kinds themselves and the
    places of the entries, for every queue. */
module DeferredOffers {
  import opened DeferredQueue

  /** The kinds that a Snapshot and the capacity spare. */
  predicate Spared(kind: Kind) {
    match kind
    case CommandResult | BackendStopped => true
    case Vision | Snapshot | Navigation | Layout | Settings | SettingsDraft | SettingsReceipt | AttachmentStaged
      | Observation | HostObservation | ResyncRequired => false
  }

  /** The kinds of which the newest replaces the queued one. */
  predicate Replaces(kind: Kind) {
    match kind
    case Navigation | Layout | Settings | SettingsDraft => true
    case Vision | Snapshot | SettingsReceipt | AttachmentStaged | Observation | HostObservation | CommandResult
      | ResyncRequired | BackendStopped => false
  }

  /** The kinds that DesktopSnapshot has no field for. */
  predicate Uncarried(kind: Kind) {
    match kind
    case Vision | SettingsDraft | SettingsReceipt | AttachmentStaged => true
    case Snapshot | Navigation | Layout | Settings | Observation | HostObservation | CommandResult | ResyncRequired
      | BackendStopped => false
  }

  /** `at` lists places of q, ascending: `r` is q restricted to them. */
  predicate Selects(q: seq<Update>, at: seq<nat>, r: seq<Update>) {
    && |at| == |r|
    && (forall i :: 0 <= i < |at| ==> at[i] < |q| && r[i] == q[at[i]])
    && (forall i, j :: 0 <= i < j < |at| ==> at[i] < at[j])
  }

  /** `r` is exactly the entries of q of a spared kind, in their order. */
  ghost predicate IsSparedPart(q: seq<Update>, r: seq<Update>) {
    exists at :: Selects(q, at, r) && forall p: nat :: p < |q| ==> (p in at <==> Spared(q[p].kind))
  }

  /** More than 63 entries, all of spared kinds. */
  predicate FullOfSpared(q: seq<Update>) {
    |q| >= 64 && forall p :: 0 <= p < |q| ==> Spared(q[p].kind)
  }

  lemma KindsAgree(kind: Kind)
    ensures IsPriority(kind) <==> Spared(kind)
    ensures SameReplaceableState(kind, kind) <==> Replaces(kind)
    ensures SnapshotCarries(kind) <==> !Uncarried(kind)
  {
  }

  lemma PrioritiesSnoc(q: seq<Update>, u: Update)
    ensures Priorities(q + [u]) == Priorities(q) + if Spared(u.kind) then [u] else []
  {
    KindsAgree(u.kind);
    RetainedWhenAppended(q, u);
  }

  lemma SelectsOneMore(q: seq<Update>, at: seq<nat>, r: seq<Update>, u: Update)
    requires Selects(q, at, r)
    ensures Selects(q + [u], at, r) && Selects(q + [u], at + [|q|], r + [u])
  {
  }

  lemma {:induction false} PrioritiesAreSpared(q: seq<Update>) returns (at: seq<nat>)
    ensures Selects(q, at, Priorities(q)) && forall p: nat :: p < |q| ==> (p in at <==> Spared(q[p].kind))
    decreases |q|
  {
    at := [];
    if q != [] {
      var n := |q| - 1;
      var front := PrioritiesAreSpared(q[..n]);
      assert q == q[..n] + [q[n]];
      PrioritiesSnoc(q[..n], q[n]);
      SelectsOneMore(q[..n], front, Priorities(q[..n]), q[n]);
      at := if Spared(q[n].kind) then front + [n] else front;
      forall p: nat | p < |q| ensures p in at <==> Spared(q[p].kind) {
        assert p < n ==> q[..n][p] == q[p];
      }
    }
  }

  /** A Snapshot leaves exactly the CommandResults and BackendStoppeds that were queued, in their
      order, behind them itself, and no resync flagged. */
  lemma SnapshotExactly(d: Delivery, u: Update)
    requires u.kind == Snapshot
    ensures var r := Queued(d, u);
            && r.queue != [] && r.queue[|r.queue| - 1] == u && IsSparedPart(d.queue, r.queue[..|r.queue| - 1])
            && !r.resync && r.flushing == d.flushing
  {
    var at := PrioritiesAreSpared(d.queue);
    assert Queued(d, u).queue[..|Priorities(d.queue)|] == Priorities(d.queue);
  }

  /** p is the last place of an entry of that kind. */
  predicate LastOf(q: seq<Update>, p: nat, kind: Kind) {
    p < |q| && q[p].kind == kind && forall r :: p < r < |q| ==> q[r].kind != kind
  }

  /** A Navigation, Layout, Settings or SettingsDraft replaces the last of its kind where it
      stands, whatever the length of the queue; nothing else moves. */
  lemma ReplacementExactly(d: Delivery, u: Update, p: nat)
    requires Replaces(u.kind) && LastOf(d.queue, p, u.kind)
    ensures Queued(d, u) == Delivery(d.queue[p := u], d.flushing, d.resync)
  {
    KindsAgree(u.kind);
    assert SameReplaceableState(d.queue[p].kind, u.kind);
    var e := ReplaceablePosition(d.queue, u.kind);
    assert d.queue[e].kind == u.kind;
  }

  /** Nothing queued is replaced by the kind. */
  predicate Joins(q: seq<Update>, kind: Kind) {
    kind != Snapshot && !(Replaces(kind) && exists p :: 0 <= p < |q| && q[p].kind == kind)
  }

  lemma JoinsOrNot(q: seq<Update>, kind: Kind)
    requires Joins(q, kind)
    ensures !HasReplaceable(q, kind)
  {
    KindsAgree(kind);
  }

  /** Any other offer joins the end while fewer than 64 are queued. */
  lemma JoiningExactly(d: Delivery, u: Update)
    requires Joins(d.queue, u.kind) && |d.queue| < 64
    ensures Queued(d, u) == Delivery(d.queue + [u], d.flushing, d.resync)
  {
    JoinsOrNot(d.queue, u.kind);
  }

  /** p is the first place of an entry that is neither a CommandResult nor a BackendStopped. */
  predicate FirstUnspared(q: seq<Update>, p: nat) {
    p < |q| && !Spared(q[p].kind) && forall r :: 0 <= r < p ==> Spared(q[r].kind)
  }

  /** From 64 on a CommandResult or BackendStopped takes out the oldest entry of another kind. */
  lemma EvictionExactly(d: Delivery, u: Update, p: nat)
    requires Joins(d.queue, u.kind) && |d.queue| >= 64 && Spared(u.kind) && FirstUnspared(d.queue, p)
    ensures Queued(d, u) == Delivery(d.queue[..p] + d.queue[p + 1..] + [u], d.flushing, true)
  {
    JoinsOrNot(d.queue, u.kind);
    KindsAgree(u.kind);
    KindsAgree(d.queue[p].kind);
    var e := EvictedPosition(d.queue);
    KindsAgree(d.queue[e].kind);
    assert e >= p;
  }

  /** Otherwise it is dropped: any other kind from 64 on, and one of those two if there is no
      other kind to take out. */
  lemma RefusalExactly(d: Delivery, u: Update)
    requires Joins(d.queue, u.kind) && |d.queue| >= 64 && (!Spared(u.kind) || FullOfSpared(d.queue))
    ensures Queued(d, u) == Delivery(d.queue, d.flushing, true)
  {
    JoinsOrNot(d.queue, u.kind);
    KindsAgree(u.kind);
    if Spared(u.kind) {
      forall p | 0 <= p < |d.queue| ensures IsPriority(d.queue[p].kind) {
        KindsAgree(d.queue[p].kind);
      }
    }
  }

  /** `r` is what q has of the spared kinds, and then `more`. */
  ghost predicate SparedThen(q: seq<Update>, more: seq<Update>, r: seq<Update>) {
    exists kept :: IsSparedPart(q, kept) && IsSparedPart(r, kept + more)
  }

  /** In every case: each queued CommandResult and BackendStopped stays, in order, and an offered
      one joins them unless 64 or more entries are queued and all are of those two kinds. */
  lemma SparedStay(d: Delivery, u: Update)
    ensures SparedThen(d.queue, if Spared(u.kind) && !FullOfSpared(d.queue) then [u] else [], Queued(d, u).queue)
  {
    PriorityRetention(d, u);
    KindsAgree(u.kind);
    if IsPriority(u.kind) {
      PriorityRefusal(d.queue, u.kind);
      AllSpared(d.queue);
    }
    var before := PrioritiesAreSpared(d.queue);
    var after := PrioritiesAreSpared(Queued(d, u).queue);
    assert IsSparedPart(d.queue, Priorities(d.queue));
    assert IsSparedPart(Queued(d, u).queue, Priorities(Queued(d, u).queue));
    assert Priorities(d.queue) + [] == Priorities(d.queue);
  }

  lemma AllSpared(q: seq<Update>)
    ensures AllPriority(q) <==> forall p :: 0 <= p < |q| ==> Spared(q[p].kind)
  {
    forall p | 0 <= p < |q| ensures IsPriority(q[p].kind) <==> Spared(q[p].kind) {
      KindsAgree(q[p].kind);
    }
  }
}
