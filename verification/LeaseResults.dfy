/** What each lease operation answers and leaves, on every table: stated about the fields of the
    leases themselves, for every branch. */
module LeaseResults {
  import opened Common
  import opened ControllerLeasing

  predicate IsHolder(t: Table, k: Conversation, client: ClientId) {
    k in t.leases && t.leases[k].client == client && t.leases[k].state == Connected
  }

  /** The snapshot shows the lease; the remaining grace is whole milliseconds, none once over. */
  predicate Shows(s: Snapshot, k: Conversation, l: Lease, now: Instant) {
    && s.conversation == k && s.controller == l.controller && s.generation == l.generation
    && s.state == l.state && s.takeover == l.takeover && s.reason == l.reason
    && (s.graceRemainingMs.None? <==> l.deadline.None?)
    && (l.deadline.Some? ==>
          var ms := s.graceRemainingMs.value;
          if l.deadline.value <= now then ms == 0
          else ms * 1_000_000 <= l.deadline.value - now
               && (ms < U64_MAX ==> l.deadline.value - now < (ms + 1) * 1_000_000) && ms <= U64_MAX)
  }

  /** The number of the next lease of k: one more than the last, up to the ceiling. */
  predicate Follows(t: Table, k: Conversation, g: nat) {
    var last := if k in t.generations then t.generations[k] else 0;
    g == if last < U64_MAX then last + 1 else U64_MAX
  }

  /** Nothing but conversation k is touched. */
  ghost predicate OnlyAt(t: Table, t': Table, k: Conversation) {
    && (forall j :: j != k ==> (j in t'.leases <==> j in t.leases) && (j in t'.generations <==> j in t.generations))
    && (forall j :: j != k && j in t.leases ==> t'.leases[j] == t.leases[j])
    && (forall j :: j != k && j in t.generations ==> t'.generations[j] == t.generations[j])
  }

  /** `client` now holds k, connected, with a new generation and the new capability, and is told so. */
  ghost predicate Grants(t: Table, t': Table, r: Result<Grant, LeaseError>, k: Conversation, client: ClientId,
                         controller: ControllerId, taken: Takeover, kind: ChangeKind, now: Instant, cap: Capability)
  {
    && OnlyAt(t, t', k) && IsHolder(t', k, client) && k in t'.generations
    && t'.generations[k] == t'.leases[k].generation && Follows(t, k, t'.leases[k].generation)
    && t'.leases[k].controller == controller && t'.leases[k].takeover == taken
    && t'.leases[k].digest == Blake3(cap) && t'.leases[k].deadline.None? && t'.leases[k].reason.None?
    && r.Ok? && r.value.kind == kind && r.value.capability == cap && Shows(r.value.snapshot, k, t'.leases[k], now)
  }

  lemma ShownBySnapshot(k: Conversation, l: Lease, now: Instant)
    ensures Shows(SnapshotOf(k, l, now), k, l, now)
  {
    if l.deadline.Some? && now < l.deadline.value {
      var left := l.deadline.value - now;
      assert left / 1_000_000 * 1_000_000 <= left < (left / 1_000_000 + 1) * 1_000_000;
    }
  }

  lemma GrantedGrants(t: Table, k: Conversation, l: Lease, now: Instant, kind: ChangeKind, cap: Capability)
    requires l.state == Connected && l.deadline.None? && l.reason.None?
    ensures var (t', r) := Granted(t, k, l, now, kind, cap);
            Grants(t, t', r, k, l.client, l.controller, l.takeover, kind, now, cap)
  {
    ShownBySnapshot(k, Granted(t, k, l, now, kind, cap).0.leases[k], now);
  }

  /** The confirmation that names the lease of k as it stands. */
  predicate Confirms(t: Table, k: Conversation, takeover: Option<Confirmation>) {
    && k in t.leases && takeover.Some?
    && takeover.value.controller == t.leases[k].controller && takeover.value.generation == t.leases[k].generation
  }

  /** Acquire, for one who does not hold k: it succeeds if and only if k is free, or the lease is
      confirmed as it stands and no approval is pending; it then makes the client the holder
      under the new controller.  Otherwise nothing changes, and the answer says which was missing. */
  lemma AcquireExactly(t: Table, k: Conversation, client: ClientId, takeover: Option<Confirmation>, pending: bool,
                       now: Instant, id: ControllerId, cap: Capability)
    requires !IsHolder(t, k, client)
    ensures var (t', r) := Acquire(t, k, client, takeover, pending, now, id, cap);
            && (r.Ok? <==> k !in t.leases || (Confirms(t, k, takeover) && !pending))
            && (r.Ok? && k !in t.leases ==> Grants(t, t', r, k, client, id, NotTakenOver, Acquired, now, cap))
            && (r.Ok? && k in t.leases ==>
                  Grants(t, t', r, k, client, id, Confirmed, TakenOver(t.leases[k].controller), now, cap))
            && (r.Err? ==> t' == t)
            && (r.Err? && Confirms(t, k, takeover) ==> r.error == PendingApproval(k))
            && (r.Err? && !Confirms(t, k, takeover) ==>
                  r.error.TakeoverConfirmationRequired? && Shows(r.error.current, k, t.leases[k], now))
  {
    if k in t.leases {
      ShownBySnapshot(k, t.leases[k], now);
    }
    var taken := if k in t.leases then Confirmed else NotTakenOver;
    var kind := if k in t.leases then TakenOver(t.leases[k].controller) else Acquired;
    GrantedGrants(t, k, Lease(client, id, 0, Blake3(cap), Connected, taken, None, None), now, kind, cap);
  }

  /** The snapshot that asks for a confirmation holds one that is accepted, unless an approval is
      pending; by anyone who does not hold k, as long as the table stands. */
  lemma AskedConfirmationIsAccepted(t: Table, k: Conversation, client: ClientId, takeover: Option<Confirmation>,
                                    pending: bool, now: Instant, id: ControllerId, cap: Capability, later: Instant)
    requires Acquire(t, k, client, takeover, pending, now, id, cap).1.Err?
    requires Acquire(t, k, client, takeover, pending, now, id, cap).1.error.TakeoverConfirmationRequired?
    ensures var current := Acquire(t, k, client, takeover, pending, now, id, cap).1.error.current;
            var given := Some(Confirmation(current.controller, current.generation));
            && Acquire(t, k, client, given, false, later, id, cap).1.Ok?
            && Acquire(t, k, client, given, true, later, id, cap) == (t, Err(PendingApproval(k)))
  {
    if IsHolder(t, k, client) {
      RenewExactly(t, k, client, now, cap);
    } else {
      AcquireExactly(t, k, client, takeover, pending, now, id, cap);
      var current := Acquire(t, k, client, takeover, pending, now, id, cap).1.error.current;
      var given := Some(Confirmation(current.controller, current.generation));
      AcquireExactly(t, k, client, given, false, later, id, cap);
      AcquireExactly(t, k, client, given, true, later, id, cap);
    }
  }

  /** Renewal, asked for directly or by acquiring what one holds: exactly the connected holder
      renews, under the same controller, and nobody else changes anything. */
  lemma RenewExactly(t: Table, k: Conversation, client: ClientId, now: Instant, cap: Capability)
    ensures var (t', r) := Renew(t, k, client, now, cap);
            if IsHolder(t, k, client) then
              Grants(t, t', r, k, client, t.leases[k].controller, t.leases[k].takeover, Renewed, now, cap)
            else t' == t && r == Err(NotController(k))
    ensures IsHolder(t, k, client) ==>
              forall takeover, pending, id ::
                Acquire(t, k, client, takeover, pending, now, id, cap) == Renew(t, k, client, now, cap)
  {
    if IsHolder(t, k, client) {
      GrantedGrants(t, k, t.leases[k].(deadline := None, reason := None), now, Renewed, cap);
    }
  }

  /** Reconnect: the least conversation with the presented capability decides.  With none it is
      invalid; after the grace it is expired, at the deadline already; otherwise the presenter
      holds it under the same controller. */
  lemma ReconnectExactly(t: Table, client: ClientId, presented: Capability, now: Instant, cap: Capability,
                         k: Conversation)
    requires k in t.leases && t.leases[k].digest == Blake3(presented)
    requires forall j :: j in t.leases && j < k ==> t.leases[j].digest != Blake3(presented)
    ensures var (t', r) := Reconnect(t, client, presented, now, cap);
            var l := t.leases[k];
            if l.state == Connected || (l.deadline.Some? && now < l.deadline.value) then
              Grants(t, t', r, k, client, l.controller, l.takeover, Reconnected, now, cap)
            else t' == t && r == Err(ExpiredReconnect)
  {
    assert Matches(t, k, presented);
    var first := FirstMatch(t, presented);
    assert first <= k && first in t.leases;
    GrantedGrants(t, k, t.leases[k].(client := client, state := Connected, deadline := None, reason := None),
                  now, Reconnected, cap);
  }

  lemma ReconnectInvalidExactly(t: Table, client: ClientId, presented: Capability, now: Instant, cap: Capability)
    ensures var (t', r) := Reconnect(t, client, presented, now, cap);
            && (r == Err(InvalidReconnect) <==> forall j :: j in t.leases ==> t.leases[j].digest != Blake3(presented))
            && (r.Err? ==> t' == t)
  {
    if j :| j in t.leases && t.leases[j].digest == Blake3(presented) {
      assert Matches(t, j, presented);
    }
  }

  /** Release: exactly the client of the lease ends it, connected or not; the generation stays. */
  lemma ReleaseExactly(t: Table, k: Conversation, client: ClientId)
    ensures var (t', r) := Release(t, k, client);
            if k in t.leases && t.leases[k].client == client then
              && r == Ok(Change(k, None, Released)) && k !in t'.leases && t'.generations == t.generations
              && t.leases == t'.leases[k := t.leases[k]]
            else t' == t && r == Err(NotController(k))
  {
  }

  /** Expiry: exactly a reconnecting lease of that generation, from its deadline on. */
  lemma ExpireExactly(t: Table, k: Conversation, generation: nat, deadline: Instant, now: Instant)
    ensures var (t', r) := Expire(t, Expiry(k, generation, deadline), now);
            if k in t.leases && t.leases[k].state == Reconnecting && t.leases[k].generation == generation
               && t.leases[k].deadline.Some? && t.leases[k].deadline.value <= now then
              && r == Some(Change(k, None, Expired)) && k !in t'.leases && t'.generations == t.generations
              && t.leases == t'.leases[k := t.leases[k]]
            else t' == t && r == None
  {
  }

  /** The lease as its disconnect leaves it: the same but for a new generation, its grace and the
      reason.  A grace past the end of time is no grace at all. */
  predicate Graced(t: Table, t': Table, k: Conversation, reason: Reason, now: Instant, grace: nat) {
    && k in t.leases && k in t'.leases && k in t'.generations
    && var (l, l') := (t.leases[k], t'.leases[k]);
       && l'.client == l.client && l'.controller == l.controller && l'.digest == l.digest && l'.takeover == l.takeover
       && l'.state == Reconnecting && l'.reason == Some(reason) && l'.deadline.Some?
       && Follows(t, k, l'.generation) && t'.generations[k] == l'.generation
       && l'.deadline.value == if now + grace < 18_446_744_073_709_551_616_000_000_000 then now + grace else now
  }

  /** Disconnect: exactly the connected leases of the client start their grace; the report of each
      shows it, with the token that will expire it. */
  lemma DisconnectExactly(t: Table, client: ClientId, reason: Reason, now: Instant, grace: nat, k: Conversation)
    ensures var t' := Disconnect(t, client, reason, now, grace);
            && (k in t'.leases <==> k in t.leases)
            && (IsHolder(t, k, client) ==> Graced(t, t', k, reason, now, grace))
            && (!IsHolder(t, k, client) ==>
                  && (k in t.leases ==> t'.leases[k] == t.leases[k])
                  && (k in t'.generations <==> k in t.generations)
                  && (k in t.generations ==> t'.generations[k] == t.generations[k]))
            && (IsHolder(t, k, client) ==>
                  var (change, expiry) := DisconnectReport(t, k, reason, now, grace);
                  && change.conversation == k && change.kind == Disconnected(reason)
                  && change.controller.Some? && Shows(change.controller.value, k, t'.leases[k], now)
                  && expiry == Expiry(k, t'.leases[k].generation, t'.leases[k].deadline.value))
  {
    if IsHolder(t, k, client) {
      ShownBySnapshot(k, Dropped(t, k, reason, now, grace), now);
    }
  }

  // ---------------------------------------------------------------- whole runs

  /** The event ends a lease l of conversation k. */
  predicate EndsLease(e: Event, k: Conversation, l: Lease) {
    || e.ExpireAllEvent?
    || (e.ReleaseEvent? && e.k == k && e.client == l.client)
    || (e.ExpireEvent? && e.e.conversation == k && e.e.generation == l.generation && l.state == Reconnecting
        && l.deadline.Some? && e.now >= l.deadline.value)
  }

  /** In every step of a host a lease ends exactly by its client's release, by its own expiry token
      from its deadline on, or with the host; and one begins exactly by acquiring a conversation
      that has none. */
  lemma LeasesComeAndGoExactly(h: Host, e: Event, k: Conversation)
    ensures k in h.t.leases ==> (k !in Apply(h, e).t.leases <==> EndsLease(e, k, h.t.leases[k]))
    ensures k !in h.t.leases ==> (k in Apply(h, e).t.leases <==> e.AcquireEvent? && e.k == k)
  {
  }
}
