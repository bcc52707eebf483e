/** What the deferred queue loses, and whether the receiver can tell: the stream that follows
    each offer, and exactly which offers are lost in silence. */
module DeferredLosses {
  import opened DeferredQueue
  import opened DeferredRuns

  // ---------------------------------------------------------------- where an offer stood

  /** `at` separates what was sent before an offer from what was sent after it. */
  predicate Stamped(s: State) {
    && |s.at| == |s.offered|
    && (forall i, j :: 0 <= i <= j < |s.at| ==> s.at[i] <= s.at[j])
    && (forall i :: 0 <= i < |s.at| ==> s.at[i] <= |s.sent|)
    && (forall p :: 0 <= p < |s.sent| && s.sent[p].body.Offered? ==>
          s.sent[p].body.index < |s.at| && s.at[s.sent[p].body.index] <= p)
    && (forall i :: 0 <= i < |s.fate| && i < |s.at| && s.fate[i].Dropped? ==> s.at[i] <= s.fate[i].mark)
  }

  lemma StampedByOffer(s: State, k: Kind)
    requires Ledger(s) && Stamped(s)
    ensures Stamped(AfterDeferral(s, k))
  {
    var s' := AfterDeferral(s, k);
    forall i | 0 <= i < |s'.fate| && s'.fate[i].Dropped? ensures i < |s'.at| && s'.at[i] <= s'.fate[i].mark {
      OfferFates(s, k, i);
    }
  }

  lemma StampedBySend(s: State)
    requires OneFlusher(s) && Ledger(s) && Stamped(s) && Enabled(s, SendOk(0))
    ensures Stamped(Apply(s, SendOk(0)))
  {
    var s' := Apply(s, SendOk(0));
    assert Genuine(s, s.tasks[0].item, Held);
    forall p | 0 <= p < |s'.sent| && s'.sent[p].body.Offered?
      ensures s'.sent[p].body.index < |s'.at| && s'.at[s'.sent[p].body.index] <= p
    {
      if p < |s.sent| {
        assert s'.sent[p] == s.sent[p];
      }
    }
  }

  /** Nothing but direct updates joins the channel, and old drops stay. */
  lemma StampedStays(s: State, s': State)
    requires Stamped(s) && s'.at == s.at && s'.offered == s.offered && s.sent <= s'.sent
    requires forall p :: |s.sent| <= p < |s'.sent| ==> s'.sent[p].body.Direct?
    requires forall i :: 0 <= i < |s'.fate| && s'.fate[i].Dropped? ==> i < |s.fate| && s.fate[i] == s'.fate[i]
    ensures Stamped(s')
  {
    forall p | 0 <= p < |s'.sent| && s'.sent[p].body.Offered?
      ensures s'.sent[p].body.index < |s'.at| && s'.at[s'.sent[p].body.index] <= p
    {
      assert s'.sent[p] == s.sent[p];
    }
  }

  lemma StampedQuietly(s: State, e: Event)
    requires Sound(s) && Stamped(s) && Enabled(s, e) && !e.Deferral? && !e.SendOk?
    ensures Stamped(Apply(s, e))
  {
    forall i: nat | i < |Apply(s, e).fate| && Apply(s, e).fate[i].Dropped?
      ensures i < |s.fate| && s.fate[i] == Apply(s, e).fate[i]
    {
      OnlyOffersDrop(s, e, i);
    }
    StampedStays(s, Apply(s, e));
  }

  lemma StampedStep(s: State, e: Event)
    requires Sound(s) && Stamped(s) && Enabled(s, e)
    ensures Stamped(Apply(s, e))
  {
    if e.Deferral? {
      StampedByOffer(s, e.kind);
    } else if e.SendOk? {
      StampedBySend(s);
    } else {
      StampedQuietly(s, e);
    }
  }

  lemma {:induction false} StampedRun(s: State, es: seq<Event>)
    requires Good(s) && Stamped(s) && Legal(s, es)
    ensures Good(Final(s, es)) && Stamped(Final(s, es))
    decreases |es|
  {
    if es != [] {
      GoodStep(s, es[0]);
      StampedStep(s, es[0]);
      StampedRun(Apply(s, es[0]), es[1..]);
    }
  }

  // ---------------------------------------------------------------- every offer is followed

  /** The entry is offer i itself, a later update of its coalescing kind, a later Snapshot or a
      ResyncRequired the flusher made up. */
  predicate Follows(s: State, i: nat, item: Item)
    requires i < |s.offered|
  {
    match item.body
    case Offered(k) =>
      k == i || (i < k && (SameReplaceableState(s.offered[i], item.kind) || item.kind == Snapshot))
    case Synthesized(_) => true
    case Direct(_) => false
  }

  ghost predicate Followed(s: State, i: nat)
    requires i < |s.offered| == |s.at|
  {
    exists p :: s.at[i] <= p < |s.sent| && Follows(s, i, s.sent[p])
  }

  ghost predicate IdleOpen(s: State) {
    Good(s) && Stamped(s) && s.open && !s.d.flushing
  }

  lemma ReachesIdle(es: seq<Event>, s: State)
    requires Legal(INIT, es) && s == Final(INIT, es) && s.open && !s.d.flushing
    ensures IdleOpen(s) && |s.offered| == |s.fate| == |s.at|
  {
    StartIsGood();
    StampedRun(INIT, es);
  }

  lemma DeliveredFollows(s: State, i: nat)
    requires IdleOpen(s) && i < |s.fate| && s.fate[i] == Delivered
    ensures Followed(s, i)
  {
    var p :| 0 <= p < |s.sent| && s.sent[p].body == Offered(i);
    assert Follows(s, i, s.sent[p]);
  }

  lemma NoticeFollows(s: State, i: nat)
    requires IdleOpen(s) && i < |s.fate| && s.fate[i].Dropped?
    ensures Followed(s, i)
  {
    IdleSettles(s, i);
    var p: nat :| SentAfter(s, s.fate[i], p);
    assert Justified(s, i);
    assert Follows(s, i, s.sent[p]);
  }

  /** What follows the update that took i's place follows i. */
  lemma ReplacementFollows(s: State, i: nat, j: nat)
    requires IdleOpen(s) && i < j < |s.fate| && Followed(s, j)
    requires s.offered[j] == Snapshot || SameReplaceableState(s.offered[i], s.offered[j])
    ensures Followed(s, i)
  {
    var p :| s.at[j] <= p < |s.sent| && Follows(s, j, s.sent[p]);
    assert Genuine(s, s.sent[p], Delivered);
    assert Follows(s, i, s.sent[p]);
  }

  lemma {:induction false} IdleFollows(s: State, i: nat)
    requires IdleOpen(s) && i < |s.fate|
    ensures Followed(s, i)
    decreases |s.fate| - i
  {
    IdleSettles(s, i);
    assert Justified(s, i);
    match s.fate[i]
    case Delivered => DeliveredFollows(s, i);
    case Dropped(_, _, _) => NoticeFollows(s, i);
    case Coalesced(j) => IdleFollows(s, j); ReplacementFollows(s, i, j);
    case Superseded(j) => IdleFollows(s, j); ReplacementFollows(s, i, j);
    case Lost(j) => IdleFollows(s, j); ReplacementFollows(s, i, j);
  }

  /** Once no flusher is left no offer is pending, and each is in the stream after the point at
      which it was made, as itself, as a later update of its coalescing kind, as a later
      Snapshot, or as a ResyncRequired; a dropped one by a notice of that very drop. */
  lemma IdleMeansSettled(es: seq<Event>, s: State, i: nat)
    requires Legal(INIT, es) && s == Final(INIT, es) && s.open && !s.d.flushing && i < |s.fate|
    ensures |s.offered| == |s.fate| == |s.at|
    ensures Settled(s, s.fate[i]) && Followed(s, i)
  {
    ReachesIdle(es, s);
    IdleSettles(s, i);
    IdleFollows(s, i);
  }

  // ---------------------------------------------------------------- what the receiver is told

  /** The entry was sent directly or made up, or offered after offer i. */
  predicate NotOlder(item: Item, i: nat) {
    item.body.Offered? ==> i < item.body.index
  }

  /** The entry is of offer i's coalescing kind, or a Snapshot that carries its kind. */
  predicate Restates(s: State, i: nat, item: Item)
    requires i < |s.offered|
  {
    && NotOlder(item, i)
    && (SameReplaceableState(s.offered[i], item.kind) || (item.kind == Snapshot && SnapshotCarries(s.offered[i])))
  }

  /** After the point of offer i the stream has it, or an update that restates it. */
  ghost predicate Said(s: State, i: nat)
    requires i < |s.offered| == |s.at|
  {
    exists p :: s.at[i] <= p < |s.sent| && (s.sent[p].body == Offered(i) || Restates(s, i, s.sent[p]))
  }

  ghost predicate Restated(s: State, i: nat)
    requires i < |s.offered| == |s.at|
  {
    exists p :: s.at[i] <= p < |s.sent| && Restates(s, i, s.sent[p])
  }

  /** After the point of offer i the receiver is asked to look again, by anyone.  It then asks
      for a Snapshot, so this is no more than a notice of a kind that Snapshots do not carry. */
  ghost predicate Notified(s: State, i: nat)
    requires i < |s.at|
  {
    exists p :: s.at[i] <= p < |s.sent| && s.sent[p].kind == ResyncRequired
  }

  /** After the point of offer i the stream has a later update of its coalescing kind. */
  ghost predicate Repeated(s: State, i: nat)
    requires i < |s.offered| == |s.at|
  {
    exists p :: s.at[i] <= p < |s.sent|
                && NotOlder(s.sent[p], i) && SameReplaceableState(s.offered[i], s.sent[p].kind)
  }

  /** The last update of the coalescing chain that starts with offer i. */
  function ChainEnd(s: State, i: nat): (k: nat)
    requires i < |s.fate|
    ensures i <= k < |s.fate| && !(s.fate[k].Coalesced? && k < s.fate[k].later < |s.fate|)
    decreases |s.fate| - i
  {
    if s.fate[i].Coalesced? && i < s.fate[i].later < |s.fate| then ChainEnd(s, s.fate[i].later) else i
  }

  /** The same, where a Snapshot that carries the kind also takes the place of an update. */
  function Heir(s: State, i: nat): (k: nat)
    requires i < |s.fate|
    ensures i <= k < |s.fate|
    decreases |s.fate| - i
  {
    if (s.fate[i].Coalesced? || s.fate[i].Superseded?) && i < s.fate[i].later < |s.fate| then Heir(s, s.fate[i].later)
    else i
  }

  lemma {:induction false} HeirOfUncarried(s: State, i: nat)
    requires Ledger(s) && i < |s.fate| && !SnapshotCarries(s.offered[i])
    ensures Heir(s, i) == ChainEnd(s, i)
    decreases |s.fate| - i
  {
    assert Justified(s, i);
    if s.fate[i].Coalesced? {
      HeirOfUncarried(s, s.fate[i].later);
    }
  }

  lemma {:induction false} HeirOfCarried(s: State, i: nat)
    requires Ledger(s) && i < |s.fate| && SnapshotCarries(s.offered[i])
    ensures SnapshotCarries(s.offered[Heir(s, i)]) && !s.fate[Heir(s, i)].Lost?
    decreases |s.fate| - i
  {
    assert Justified(s, i);
    if s.fate[i].Coalesced? || s.fate[i].Superseded? {
      HeirOfCarried(s, s.fate[i].later);
    }
  }

  lemma {:induction false} HeirSettled(s: State, i: nat)
    requires IdleOpen(s) && i < |s.fate|
    ensures var f := s.fate[Heir(s, i)]; f.Delivered? || f.Lost? || f.Dropped?
    decreases |s.fate| - i
  {
    IdleSettles(s, i);
    assert Justified(s, i);
    if s.fate[i].Coalesced? || s.fate[i].Superseded? {
      HeirSettled(s, s.fate[i].later);
    }
  }

  /** What says the update in i's place says i. */
  lemma SaidOnward(s: State, i: nat, j: nat)
    requires IdleOpen(s) && i < j < |s.fate| && Said(s, j)
    requires || (s.offered[j] == Snapshot && SnapshotCarries(s.offered[i]))
             || SameReplaceableState(s.offered[i], s.offered[j])
    ensures Said(s, i)
  {
    var p :| s.at[j] <= p < |s.sent| && (s.sent[p].body == Offered(j) || Restates(s, j, s.sent[p]));
    assert Genuine(s, s.sent[p], Delivered);
    assert Restates(s, i, s.sent[p]);
  }

  lemma {:induction false} SaidByHeir(s: State, i: nat)
    requires IdleOpen(s) && i < |s.fate| && s.fate[Heir(s, i)] == Delivered
    ensures Said(s, i)
    decreases |s.fate| - i
  {
    assert Justified(s, i);
    if s.fate[i].Coalesced? || s.fate[i].Superseded? {
      SaidByHeir(s, s.fate[i].later);
      SaidOnward(s, i, s.fate[i].later);
    } else {
      var p :| 0 <= p < |s.sent| && s.sent[p].body == Offered(i);
      assert s.at[i] <= p;
    }
  }

  lemma NotItself(s: State, i: nat)
    requires IdleOpen(s) && i < |s.fate| && s.fate[Heir(s, i)] != Delivered
    ensures forall p :: 0 <= p < |s.sent| ==> s.sent[p].body != Offered(i)
  {
    forall p | 0 <= p < |s.sent| ensures s.sent[p].body != Offered(i) {
      assert Genuine(s, s.sent[p], Delivered);
    }
  }

  lemma IdleUnsaid(s: State, i: nat)
    requires IdleOpen(s) && i < |s.fate|
    ensures var f := s.fate[Heir(s, i)]; !Said(s, i) <==> (f.Lost? || f.Dropped?) && !Restated(s, i)
  {
    HeirSettled(s, i);
    if s.fate[Heir(s, i)] == Delivered {
      SaidByHeir(s, i);
    } else {
      NotItself(s, i);
    }
  }

  /** The exact condition for an offer to be lost.  Once idle, neither the update nor anything
      that restates it has been delivered if and only if what took its place last was taken by
      a Snapshot that does not carry it, or dropped, and no later update restates it. */
  lemma UnsaidExactly(es: seq<Event>, s: State, i: nat)
    requires Legal(INIT, es) && s == Final(INIT, es) && s.open && !s.d.flushing && i < |s.fate|
    ensures |s.fate| == |s.offered| == |s.at|
    ensures var f := s.fate[Heir(s, i)]; !Said(s, i) <==> (f.Lost? || f.Dropped?) && !Restated(s, i)
  {
    ReachesIdle(es, s);
    IdleUnsaid(s, i);
  }

  /** The chain of offer i ends in an update of a kind that Snapshots do not carry which a
      Snapshot took, or which was dropped. */
  predicate Gone(s: State, i: nat)
    requires i < |s.fate| == |s.offered|
  {
    var f := s.fate[ChainEnd(s, i)];
    !SnapshotCarries(s.offered[i]) && (f.Lost? || f.Dropped?)
  }

  /** The notice of a drop reaches who is told of the offers before it. */
  lemma DropIsNotified(s: State, i: nat, k: nat)
    requires IdleOpen(s) && i <= k < |s.fate| && s.fate[k].Dropped? && SnapshotCarries(s.offered[i])
    ensures Notified(s, i) || Restated(s, i)
  {
    IdleSettles(s, k);
    var p: nat :| SentAfter(s, s.fate[k], p);
    assert Justified(s, k) && Genuine(s, s.sent[p], Delivered);
    assert s.sent[p].kind == ResyncRequired || Restates(s, i, s.sent[p]);
  }

  lemma IdleSilence(s: State, i: nat)
    requires IdleOpen(s) && i < |s.fate|
    ensures !Said(s, i) && !Notified(s, i) <==> Gone(s, i) && !Repeated(s, i) && !Notified(s, i)
  {
    IdleUnsaid(s, i);
    if SnapshotCarries(s.offered[i]) {
      HeirOfCarried(s, i);
      if s.fate[Heir(s, i)].Dropped? {
        DropIsNotified(s, i, Heir(s, i));
      }
    } else {
      HeirOfUncarried(s, i);
      assert Restated(s, i) <==> Repeated(s, i);
    }
  }

  /** The exact condition for silence.  Once idle, the stream after the point of an offer has
      neither the update, nor one that restates it, nor a ResyncRequired, if and only if its
      kind is not carried by Snapshots, its coalescing chain ends in an update that a Snapshot
      took or that was dropped, and since then came neither a later update of its coalescing
      kind nor a ResyncRequired. */
  lemma LostInSilenceExactly(es: seq<Event>, s: State, i: nat)
    requires Legal(INIT, es) && s == Final(INIT, es) && s.open && !s.d.flushing && i < |s.fate|
    ensures |s.fate| == |s.offered| == |s.at|
    ensures !Said(s, i) && !Notified(s, i) <==> Gone(s, i) && !Repeated(s, i) && !Notified(s, i)
  {
    ReachesIdle(es, s);
    IdleSilence(s, i);
  }

  /** When it happens: exactly when a Snapshot is queued while the update is still queued and
      is of a kind that the Snapshot does not carry. */
  lemma LostExactlyToASnapshot(s: State, e: Event, i: nat)
    requires Sound(s) && Enabled(s, e) && i < |s.fate|
    ensures |Apply(s, e).fate| >= |s.fate|
    ensures Apply(s, e).fate[i].Lost? && !s.fate[i].Lost? <==>
              e == Deferral(Snapshot) && s.fate[i] == Waiting && !SnapshotCarries(s.offered[i])
  {
    FateStep(s, e, i);
    if e.Deferral? {
      OfferFates(s, e.kind, i);
    } else if TouchesQueue(e) {
      NotLostByFlusher(s, e, i);
    }
  }

  lemma NotLostByFlusher(s: State, e: Event, i: nat)
    requires Sound(s) && Enabled(s, e) && TouchesQueue(e) && !e.Deferral? && i < |s.fate|
    ensures |Apply(s, e).fate| == |s.fate| && Apply(s, e).fate[i].Lost? == s.fate[i].Lost?
  {
  }
}
