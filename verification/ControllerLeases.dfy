/** Conversation-scoped controller leases: who may mutate one Conversation, under
    which generation, and with which reconnect capability.

    Conversations, clients, controllers and capabilities are names; a conversation
    name is a number so that the map's key order is the order of numbers.  An Instant
    is a number of nanoseconds.  The digest keeps its preimage, so it is injective.
    The random names an operation draws are its parameters. */
module ControllerLeasing {
  import opened Common

  type Conversation = nat
  type ClientId = nat
  type ControllerId = nat
  type Capability = nat
  type Instant = nat

  const INSTANT_MAX: nat := 0xFFFF_FFFF_FFFF_FFFF * 1_000_000_000 + 999_999_999
  const NANOS_PER_MILLI := 1_000_000

  datatype Digest = Blake3(preimage: Capability)
  datatype LeaseState = Connected | Reconnecting
  datatype Takeover = NotTakenOver | Confirmed
  datatype Reason = TransportClosed | SequenceGap

  datatype Lease = Lease(
    client: ClientId, controller: ControllerId, generation: nat, digest: Digest, state: LeaseState,
    takeover: Takeover, deadline: Option<Instant>, reason: Option<Reason>)

  datatype Confirmation = Confirmation(controller: ControllerId, generation: nat)

  datatype Snapshot = Snapshot(
    conversation: Conversation, controller: ControllerId, generation: nat, state: LeaseState,
    takeover: Takeover, graceRemainingMs: Option<nat>, reason: Option<Reason>)

  datatype ChangeKind =
    | Acquired | Renewed | Reconnected | TakenOver(previous: ControllerId)
    | Disconnected(why: Reason) | Released | Expired

  datatype Change = Change(conversation: Conversation, controller: Option<Snapshot>, kind: ChangeKind)
  datatype Grant = Grant(snapshot: Snapshot, kind: ChangeKind, capability: Capability)
  datatype Expiry = Expiry(conversation: Conversation, generation: nat, deadline: Instant)

  datatype LeaseError =
    | TakeoverConfirmationRequired(current: Snapshot)
    | PendingApproval(conversation: Conversation)
    | NotController(conversation: Conversation)
    | InvalidReconnect
    | ExpiredReconnect

  /** The value of a ControllerLeases object. */
  datatype Table = Table(leases: map<Conversation, Lease>, generations: map<Conversation, nat>)

  function Generation(t: Table, k: Conversation): nat {
    if k in t.generations then t.generations[k] else 0
  }

  function NextGeneration(t: Table, k: Conversation): nat {
    SaturatingAdd(Generation(t, k), 1)
  }

  function Deadline(now: Instant, grace: nat): Instant {
    if now + grace <= INSTANT_MAX then now + grace else now
  }

  function SnapshotOf(k: Conversation, l: Lease, now: Instant): Snapshot {
    var remaining := match l.deadline
      case None => None
      case Some(d) => Some(Min((if now < d then d - now else 0) / NANOS_PER_MILLI, U64_MAX));
    Snapshot(k, l.controller, l.generation, l.state, l.takeover, remaining, l.reason)
  }

  predicate Controls(t: Table, k: Conversation, client: ClientId) {
    k in t.leases && t.leases[k].client == client && t.leases[k].state == Connected
  }

  /** Every grant and every disconnect installs a lease under the next generation. */
  function Installed(t: Table, k: Conversation, l: Lease): Table {
    var g := NextGeneration(t, k);
    Table(t.leases[k := l.(generation := g)], t.generations[k := g])
  }

  function Granted(t: Table, k: Conversation, l: Lease, now: Instant, kind: ChangeKind, cap: Capability)
    : (Table, Result<Grant, LeaseError>)
  {
    var t' := Installed(t, k, l.(digest := Blake3(cap)));
    (t', Ok(Grant(SnapshotOf(k, t'.leases[k], now), kind, cap)))
  }

  function Renew(t: Table, k: Conversation, client: ClientId, now: Instant, cap: Capability)
    : (Table, Result<Grant, LeaseError>)
  {
    if !Controls(t, k, client) then (t, Err(NotController(k)))
    else Granted(t, k, t.leases[k].(deadline := None, reason := None), now, Renewed, cap)
  }

  function Acquire(t: Table, k: Conversation, client: ClientId, takeover: Option<Confirmation>, pending: bool,
                   now: Instant, id: ControllerId, cap: Capability): (Table, Result<Grant, LeaseError>)
  {
    if Controls(t, k, client) then Renew(t, k, client, now, cap)
    else if k in t.leases && takeover != Some(Confirmation(t.leases[k].controller, t.leases[k].generation)) then
      (t, Err(TakeoverConfirmationRequired(SnapshotOf(k, t.leases[k], now))))
    else if k in t.leases && pending then (t, Err(PendingApproval(k)))
    else
      var taken := if k in t.leases then Confirmed else NotTakenOver;
      var kind := if k in t.leases then TakenOver(t.leases[k].controller) else Acquired;
      Granted(t, k, Lease(client, id, 0, Blake3(cap), Connected, taken, None, None), now, kind, cap)
  }

  function Dropped(t: Table, k: Conversation, reason: Reason, now: Instant, grace: nat): Lease
    requires k in t.leases
  {
    t.leases[k].(generation := NextGeneration(t, k), state := Reconnecting,
                 deadline := Some(Deadline(now, grace)), reason := Some(reason))
  }

  /** The table once the leases of `hit` are disconnected. */
  function DropAll(t: Table, hit: set<Conversation>, reason: Reason, now: Instant, grace: nat): Table
    requires hit <= t.leases.Keys
  {
    Table(map k | k in t.leases :: if k in hit then Dropped(t, k, reason, now, grace) else t.leases[k],
          map k | k in t.generations.Keys + hit :: if k in hit then NextGeneration(t, k) else t.generations[k])
  }

  function Disconnect(t: Table, client: ClientId, reason: Reason, now: Instant, grace: nat): Table {
    DropAll(t, HeldBy(t, client), reason, now, grace)
  }

  function HeldBy(t: Table, client: ClientId): set<Conversation> {
    set k | k in t.leases && Controls(t, k, client)
  }

  /** The change and the expiry token reported for one disconnected conversation. */
  function DisconnectReport(t: Table, k: Conversation, reason: Reason, now: Instant, grace: nat): (Change, Expiry)
    requires k in t.leases
  {
    var l := Dropped(t, k, reason, now, grace);
    (Change(k, Some(SnapshotOf(k, l, now)), Disconnected(reason)), Expiry(k, l.generation, l.deadline.value))
  }

  predicate Matches(t: Table, k: Conversation, cap: Capability) {
    k in t.leases && t.leases[k].digest == Blake3(cap)
  }

  predicate GraceOver(l: Lease, now: Instant) {
    l.state == Reconnecting && (l.deadline.None? || now >= l.deadline.value)
  }

  predicate HasMatch(t: Table, cap: Capability) {
    exists k :: k in t.leases && Matches(t, k, cap)
  }

  /** The least conversation whose stored digest the presented capability has. */
  ghost function FirstMatch(t: Table, cap: Capability): (k: Conversation)
    requires HasMatch(t, cap)
    ensures Matches(t, k, cap) && forall j :: Matches(t, j, cap) ==> k <= j
  {
    var k :| Matches(t, k, cap);
    LeastMatch(t, cap, k)
  }

  ghost function LeastMatch(t: Table, cap: Capability, bound: Conversation): (k: Conversation)
    requires Matches(t, bound, cap)
    ensures Matches(t, k, cap) && forall j :: Matches(t, j, cap) ==> k <= j
    decreases bound
  {
    if exists j: nat :: j < bound && Matches(t, j, cap) then
      var j: nat :| j < bound && Matches(t, j, cap);
      LeastMatch(t, cap, j)
    else bound
  }

  ghost function Reconnect(t: Table, client: ClientId, presented: Capability, now: Instant, cap: Capability)
    : (Table, Result<Grant, LeaseError>)
  {
    if !HasMatch(t, presented) then (t, Err(InvalidReconnect))
    else
      var k := FirstMatch(t, presented);
      if GraceOver(t.leases[k], now) then (t, Err(ExpiredReconnect))
      else
        Granted(t, k, t.leases[k].(client := client, state := Connected, deadline := None, reason := None),
                now, Reconnected, cap)
  }

  function Release(t: Table, k: Conversation, client: ClientId): (Table, Result<Change, LeaseError>) {
    if k in t.leases && t.leases[k].client == client then
      (t.(leases := t.leases - {k}), Ok(Change(k, None, Released)))
    else (t, Err(NotController(k)))
  }

  predicate Expires(t: Table, e: Expiry, now: Instant) {
    && e.conversation in t.leases
    && var l := t.leases[e.conversation];
       l.state == Reconnecting && l.generation == e.generation && l.deadline.Some? && now >= l.deadline.value
  }

  function Expire(t: Table, e: Expiry, now: Instant): (Table, Option<Change>) {
    if Expires(t, e, now) then
      (t.(leases := t.leases - {e.conversation}), Some(Change(e.conversation, None, Expired)))
    else (t, None)
  }

  // ------------------------------------------------------------- the object

  lemma DropNone(t: Table, reason: Reason, now: Instant, grace: nat)
    ensures DropAll(t, {}, reason, now, grace) == t
  {
    assert DropAll(t, {}, reason, now, grace).leases == t.leases;
    assert DropAll(t, {}, reason, now, grace).generations == t.generations;
  }

  /** Disconnecting leases one at a time, in any order, is disconnecting them all. */
  lemma DropOneMore(t: Table, done: set<Conversation>, k: Conversation, reason: Reason, now: Instant, grace: nat)
    requires done <= t.leases.Keys && k in t.leases && k !in done
    ensures var t' := DropAll(t, done, reason, now, grace);
            && DropAll(t', {k}, reason, now, grace) == DropAll(t, done + {k}, reason, now, grace)
            && DisconnectReport(t', k, reason, now, grace) == DisconnectReport(t, k, reason, now, grace)
  {
    var t' := DropAll(t, done, reason, now, grace);
    assert DropAll(t', {k}, reason, now, grace).leases == DropAll(t, done + {k}, reason, now, grace).leases;
    assert DropAll(t', {k}, reason, now, grace).generations == DropAll(t, done + {k}, reason, now, grace).generations;
  }

  class ControllerLeases {
    var leases: map<Conversation, Lease>
    var generations: map<Conversation, nat>

    ghost function View(): Table
      reads this
    {
      Table(leases, generations)
    }

    constructor ()
      ensures View() == Table(map[], map[])
    {
      leases, generations := map[], map[];
    }

    method Next(k: Conversation) returns (g: nat)
      modifies this`generations
      ensures g == NextGeneration(old(View()), k) && generations == old(generations)[k := g]
    {
      g := SaturatingAdd(if k in generations then generations[k] else 0, 1);
      generations := generations[k := g];
    }

    method AcquireLease(k: Conversation, client: ClientId, takeover: Option<Confirmation>, pending: bool,
                        now: Instant, id: ControllerId, cap: Capability) returns (r: Result<Grant, LeaseError>)
      modifies this
      ensures (View(), r) == Acquire(old(View()), k, client, takeover, pending, now, id, cap)
    {
      var taken, kind := NotTakenOver, Acquired;
      if k in leases {
        var existing := leases[k];
        if existing.client == client && existing.state == Connected {
          r := RenewLease(k, client, now, cap);
          return;
        }
        if takeover != Some(Confirmation(existing.controller, existing.generation)) {
          return Err(TakeoverConfirmationRequired(SnapshotOf(k, existing, now)));
        }
        if pending {
          return Err(PendingApproval(k));
        }
        taken, kind := Confirmed, TakenOver(existing.controller);
      }
      var g := Next(k);
      leases := leases[k := Lease(client, id, g, Blake3(cap), Connected, taken, None, None)];
      r := Ok(Grant(SnapshotOf(k, leases[k], now), kind, cap));
    }

    method RenewLease(k: Conversation, client: ClientId, now: Instant, cap: Capability)
      returns (r: Result<Grant, LeaseError>)
      modifies this
      ensures (View(), r) == Renew(old(View()), k, client, now, cap)
    {
      if k !in leases || leases[k].client != client || leases[k].state != Connected {
        return Err(NotController(k));
      }
      var g := Next(k);
      leases := leases[k := leases[k].(generation := g, digest := Blake3(cap), deadline := None, reason := None)];
      r := Ok(Grant(SnapshotOf(k, leases[k], now), Renewed, cap));
    }

    method DropLease(k: Conversation, reason: Reason, now: Instant, grace: nat) returns (report: (Change, Expiry))
      requires k in leases
      modifies this
      ensures View() == DropAll(old(View()), {k}, reason, now, grace)
      ensures report == DisconnectReport(old(View()), k, reason, now, grace)
    {
      ghost var t := View();
      var g := Next(k);
      var deadline := Deadline(now, grace);
      leases := leases[k := leases[k].(
        generation := g, state := Reconnecting, deadline := Some(deadline), reason := Some(reason))];
      report := (Change(k, Some(SnapshotOf(k, leases[k], now)), Disconnected(reason)), Expiry(k, g, deadline));
      assert leases == DropAll(t, {k}, reason, now, grace).leases;
      assert generations == DropAll(t, {k}, reason, now, grace).generations;
    }

    /** Reports are in conversation order, one for each lease the client held connected. */
    method DisconnectClient(client: ClientId, reason: Reason, now: Instant, grace: nat)
      returns (reports: seq<(Change, Expiry)>)
      modifies this
      ensures View() == Disconnect(old(View()), client, reason, now, grace)
      ensures var hit := KeyOrder(HeldBy(old(View()), client));
              && |reports| == |hit|
              && forall i :: 0 <= i < |hit| ==>
                   hit[i] in old(leases) && reports[i] == DisconnectReport(old(View()), hit[i], reason, now, grace)
    {
      ghost var t := View();
      var held := set k | k in leases && leases[k].client == client && leases[k].state == Connected;
      assert held == HeldBy(t, client);
      var hit := KeyOrder(held);
      assert forall i :: 0 <= i < |hit| ==> hit[i] in hit;
      reports := [];
      ghost var done: set<Conversation> := {};
      DropNone(t, reason, now, grace);
      for n := 0 to |hit|
        invariant |reports| == n && done <= HeldBy(t, client)
        invariant forall i :: 0 <= i < |hit| ==> (hit[i] in done <==> i < n)
        invariant View() == DropAll(t, done, reason, now, grace)
        invariant forall i :: 0 <= i < n ==> reports[i] == DisconnectReport(t, hit[i], reason, now, grace)
      {
        DropOneMore(t, done, hit[n], reason, now, grace);
        var report := DropLease(hit[n], reason, now, grace);
        reports := reports + [report];
        done := done + {hit[n]};
      }
      assert forall k :: k in HeldBy(t, client) ==> k in hit;
      assert done == HeldBy(t, client);
    }

    method ReconnectLease(client: ClientId, presented: Capability, now: Instant, cap: Capability)
      returns (r: Result<Grant, LeaseError>)
      modifies this
      ensures (View(), r) == Reconnect(old(View()), client, presented, now, cap)
    {
      var matched := set k | k in leases && leases[k].digest == Blake3(presented);
      if matched == {} {
        assert forall k :: k in leases && Matches(View(), k, presented) ==> k in matched;
        return Err(InvalidReconnect);
      }
      LeastExists(matched);
      var k :| IsLeast(k, matched);
      assert Matches(View(), k, presented);
      assert FirstMatch(View(), presented) in matched;
      if leases[k].state == Reconnecting && (leases[k].deadline.None? || now >= leases[k].deadline.value) {
        return Err(ExpiredReconnect);
      }
      var g := Next(k);
      leases := leases[k := leases[k].(client := client, generation := g, digest := Blake3(cap), state := Connected,
                                       deadline := None, reason := None)];
      r := Ok(Grant(SnapshotOf(k, leases[k], now), Reconnected, cap));
    }

    method ReleaseLease(k: Conversation, client: ClientId) returns (r: Result<Change, LeaseError>)
      modifies this`leases
      ensures (View(), r) == Release(old(View()), k, client)
    {
      if k !in leases || leases[k].client != client {
        return Err(NotController(k));
      }
      leases := leases - {k};
      r := Ok(Change(k, None, Released));
    }

    method ExpireLease(e: Expiry, now: Instant) returns (r: Option<Change>)
      modifies this`leases
      ensures (View(), r) == Expire(old(View()), e, now)
    {
      if e.conversation !in leases {
        return None;
      }
      var l := leases[e.conversation];
      if l.state != Reconnecting || l.generation != e.generation || l.deadline.None? || now < l.deadline.value {
        return None;
      }
      leases := leases - {e.conversation};
      r := Some(Change(e.conversation, None, Expired));
    }

    /** Host shutdown: every lease goes, every generation stays. */
    method ExpireAll() returns (changes: seq<Change>)
      modifies this`leases
      ensures leases == map[]
      ensures var gone := KeyOrder(old(leases).Keys);
              |changes| == |gone| && forall i :: 0 <= i < |gone| ==> changes[i] == Change(gone[i], None, Expired)
    {
      var gone := KeyOrder(leases.Keys);
      leases := map[];
      changes := seq(|gone|, i requires 0 <= i < |gone| => Change(gone[i], None, Expired));
    }
  }

  /** `constant_time_equal`: the accumulated difference is zero exactly for equal digests. */
  method ConstantTimeEqual(left: seq<bv8>, right: seq<bv8>) returns (equal: bool)
    requires |left| == |right| == 32
    ensures equal <==> left == right
  {
    var different: bv8 := 0;
    for i := 0 to 32
      invariant different == 0 <==> left[..i] == right[..i]
    {
      var was := different;
      different := different | (left[i] ^ right[i]);
      OrXor(was, left[i], right[i]);
      assert left[..i + 1] == left[..i] + [left[i]] && right[..i + 1] == right[..i] + [right[i]];
    }
    assert left[..32] == left && right[..32] == right;
    equal := different == 0;
  }

  lemma OrXor(d: bv8, l: bv8, r: bv8)
    ensures d | (l ^ r) == 0 <==> d == 0 && l == r
  {
  }

  // ------------------------------------------------------------ whole runs

  datatype Event =
    | AcquireEvent(k: Conversation, client: ClientId, takeover: Option<Confirmation>, pending: bool,
                   now: Instant, id: ControllerId, cap: Capability)
    | RenewEvent(k: Conversation, client: ClientId, now: Instant, cap: Capability)
    | DisconnectEvent(client: ClientId, reason: Reason, now: Instant, grace: nat)
    | ReconnectEvent(client: ClientId, presented: Capability, now: Instant, cap: Capability)
    | ReleaseEvent(k: Conversation, client: ClientId)
    | ExpireEvent(e: Expiry, now: Instant)
    | ExpireAllEvent

  /** A host: its table, every capability drawn so far and the latest one granted
      for each conversation. */
  datatype Host = Host(t: Table, drawn: set<Capability>, latest: map<Conversation, Capability>)

  const NEW_HOST := Host(Table(map[], map[]), {}, map[])

  ghost function Granting(t: Table, e: Event): (Table, Result<Grant, LeaseError>)
    requires e.AcquireEvent? || e.RenewEvent? || e.ReconnectEvent?
  {
    match e
    case AcquireEvent(k, client, takeover, pending, now, id, cap) =>
        Acquire(t, k, client, takeover, pending, now, id, cap)
    case RenewEvent(k, client, now, cap) => Renew(t, k, client, now, cap)
    case ReconnectEvent(client, presented, now, cap) => Reconnect(t, client, presented, now, cap)
  }

  predicate Grants(e: Event) {
    e.AcquireEvent? || e.RenewEvent? || e.ReconnectEvent?
  }

  /** A drawn capability is new: two random UUIDs never repeat. */
  predicate Enabled(h: Host, e: Event) {
    Grants(e) ==> e.cap !in h.drawn
  }

  ghost function Apply(h: Host, e: Event): Host {
    if Grants(e) then
      var (t', r) := Granting(h.t, e);
      if r.Ok? then Host(t', h.drawn + {e.cap}, h.latest[r.value.snapshot.conversation := e.cap]) else h.(t := t')
    else
      match e
      case DisconnectEvent(client, reason, now, grace) => h.(t := Disconnect(h.t, client, reason, now, grace))
      case ReleaseEvent(k, client) => h.(t := Release(h.t, k, client).0)
      case ExpireEvent(x, now) => h.(t := Expire(h.t, x, now).0)
      case _ => h.(t := h.t.(leases := map[]))
  }

  ghost predicate Legal(h: Host, es: seq<Event>)
    decreases |es|
  {
    es == [] || (Enabled(h, es[0]) && Legal(Apply(h, es[0]), es[1..]))
  }

  ghost function Final(h: Host, es: seq<Event>): Host
    decreases |es|
  {
    if es == [] then h else Final(Apply(h, es[0]), es[1..])
  }

  /** A live lease stands at its conversation's generation and holds the digest of the
      latest capability granted there, which no other conversation was granted. */
  ghost predicate Consistent(h: Host) {
    && (forall k :: k in h.t.leases ==>
          k in h.t.generations && h.t.leases[k].generation == h.t.generations[k] && h.t.leases[k].generation >= 1)
    && (forall k :: k in h.t.generations ==> h.t.generations[k] <= U64_MAX)
    && (forall k :: k in h.latest ==> h.latest[k] in h.drawn)
    && (forall k, j :: k in h.latest && j in h.latest && k != j ==> h.latest[k] != h.latest[j])
    && (forall k :: k in h.t.leases ==> k in h.latest && h.t.leases[k].digest == Blake3(h.latest[k]))
    && (forall k :: k in h.t.leases && h.t.leases[k].state == Reconnecting ==> h.t.leases[k].deadline.Some?)
  }

  /** Whether `e` grants or disconnects a lease of k in this table. */
  ghost predicate Touches(t: Table, e: Event, k: Conversation) {
    if Grants(e) then Granting(t, e).1.Ok? && Granting(t, e).1.value.snapshot.conversation == k
    else e.DisconnectEvent? && k in HeldBy(t, e.client)
  }

  lemma {:induction false} GrantKeepsConsistency(h: Host, k: Conversation, l: Lease, now: Instant, kind: ChangeKind,
                                                 cap: Capability)
    requires Consistent(h) && cap !in h.drawn && l.state == Connected
    ensures Consistent(Host(Granted(h.t, k, l, now, kind, cap).0, h.drawn + {cap}, h.latest[k := cap]))
  {
  }

  lemma {:induction false} DisconnectKeepsConsistency(h: Host, client: ClientId, reason: Reason, now: Instant,
                                                      grace: nat)
    requires Consistent(h)
    ensures Consistent(h.(t := Disconnect(h.t, client, reason, now, grace)))
  {
  }

  lemma {:induction false} ConsistentStep(h: Host, e: Event)
    requires Consistent(h) && Enabled(h, e)
    ensures Consistent(Apply(h, e))
  {
    match e
    case AcquireEvent(k, client, takeover, pending, now, id, cap) =>
      if Granting(h.t, e).1.Ok? && !Controls(h.t, k, client) {
        var taken := if k in h.t.leases then Confirmed else NotTakenOver;
        var kind := if k in h.t.leases then TakenOver(h.t.leases[k].controller) else Acquired;
        GrantKeepsConsistency(h, k, Lease(client, id, 0, Blake3(cap), Connected, taken, None, None), now, kind, cap);
      } else if Controls(h.t, k, client) {
        GrantKeepsConsistency(h, k, h.t.leases[k].(deadline := None, reason := None), now, Renewed, cap);
      }
    case RenewEvent(k, client, now, cap) =>
      if Controls(h.t, k, client) {
        GrantKeepsConsistency(h, k, h.t.leases[k].(deadline := None, reason := None), now, Renewed, cap);
      }
    case DisconnectEvent(client, reason, now, grace) => DisconnectKeepsConsistency(h, client, reason, now, grace);
    case ReconnectEvent(client, presented, now, cap) =>
      if Granting(h.t, e).1.Ok? {
        var k := FirstMatch(h.t, presented);
        var granted := h.t.leases[k].(client := client, state := Connected, deadline := None, reason := None);
        GrantKeepsConsistency(h, k, granted, now, Reconnected, cap);
      }
    case _ =>
  }

  lemma {:induction false} ConsistentRun(h: Host, es: seq<Event>)
    requires Consistent(h) && Legal(h, es)
    ensures Consistent(Final(h, es))
    decreases |es|
  {
    if es != [] {
      ConsistentStep(h, es[0]);
      ConsistentRun(Apply(h, es[0]), es[1..]);
    }
  }

  /** In every state a new host can reach, a live lease's generation is its entry in
      `generations`, and its digest is that of the latest capability issued for it. */
  lemma LeasesMatchGenerations(es: seq<Event>, k: Conversation)
    requires Legal(NEW_HOST, es) && k in Final(NEW_HOST, es).t.leases
    ensures var h := Final(NEW_HOST, es);
            && k in h.t.generations && h.t.leases[k].generation == h.t.generations[k] <= U64_MAX
            && k in h.latest && h.t.leases[k].digest == Blake3(h.latest[k])
    ensures Consistent(Final(NEW_HOST, es))
  {
    ConsistentRun(NEW_HOST, es);
  }

  // ------------------------------------------------------------ generations

  /** A grant or a disconnect raises its conversation's generation by exactly one, up to
      the u64 ceiling; nothing else, release, expiry and shutdown included, moves any. */
  lemma {:induction false} GenerationStep(h: Host, e: Event, k: Conversation)
    ensures Generation(Apply(h, e).t, k) == if Touches(h.t, e, k) then NextGeneration(h.t, k) else Generation(h.t, k)
  {
  }

  lemma {:induction false} GenerationsNeverFall(h: Host, es: seq<Event>, k: Conversation)
    requires Generation(h.t, k) <= U64_MAX
    ensures Generation(h.t, k) <= Generation(Final(h, es).t, k) <= U64_MAX
    decreases |es|
  {
    if es != [] {
      GenerationStep(h, es[0], k);
      GenerationsNeverFall(Apply(h, es[0]), es[1..], k);
    }
  }

  /** A confirmation or expiry token of an earlier generation is inert in every later
      state: acquiring with it is acquiring without any, and expiring with it is nothing. */
  lemma StaleTokensAreInert(h: Host, es: seq<Event>, k: Conversation, g: nat, client: ClientId, pending: bool,
                            now: Instant, old_id: ControllerId, id: ControllerId, cap: Capability, deadline: Instant)
    requires Consistent(h) && Legal(h, es) && g < Generation(h.t, k)
    ensures var t := Final(h, es).t;
            && Acquire(t, k, client, Some(Confirmation(old_id, g)), pending, now, id, cap)
               == Acquire(t, k, client, None, pending, now, id, cap)
            && Expire(t, Expiry(k, g, deadline), now) == (t, None)
  {
    ConsistentRun(h, es);
    GenerationsNeverFall(h, es, k);
  }

  /** A token of the current generation goes stale at the next grant or disconnect of
      its conversation exactly when the generation is below the ceiling. */
  lemma TouchMakesTokensStale(h: Host, e: Event, k: Conversation)
    requires Consistent(h) && Touches(h.t, e, k)
    ensures Generation(h.t, k) < Generation(Apply(h, e).t, k) <==> Generation(h.t, k) < U64_MAX
  {
    GenerationStep(h, e, k);
  }

  /** Where strictness ends: at the ceiling a confirmation read before a renewal still
      takes the renewed lease over. */
  lemma CeilingConfirmationSurvivesRenewal(t: Table, k: Conversation, holder: ClientId, rival: ClientId, now: Instant,
                                           id: ControllerId, cap: Capability, cap': Capability)
    requires Controls(t, k, holder) && rival != holder && k in t.generations
    requires t.leases[k].generation == t.generations[k] <= U64_MAX
    ensures var seen := Confirmation(t.leases[k].controller, t.leases[k].generation);
            var renewed := Renew(t, k, holder, now, cap).0;
            Acquire(renewed, k, rival, Some(seen), false, now, id, cap').1.Ok? <==> t.generations[k] == U64_MAX
  {
  }

  // ----------------------------------------------------- reconnect capability

  /** The capability a host accepts for k, if any, is the latest one granted for k. */
  ghost predicate AcceptsFor(h: Host, k: Conversation, presented: Capability, now: Instant) {
    k in h.t.leases && k in h.latest && h.latest[k] == presented && !GraceOver(h.t.leases[k], now)
  }

  /** In a consistent host, what `reconnect` accepts is the latest capability of one live
      lease within its grace, and of no other conversation; acceptance is what lets it grant. */
  lemma AcceptanceIsLatest(h: Host, client: ClientId, presented: Capability, now: Instant, cap: Capability)
    requires Consistent(h)
    ensures Reconnect(h.t, client, presented, now, cap).1.Ok? <==> exists k :: AcceptsFor(h, k, presented, now)
    ensures forall k :: AcceptsFor(h, k, presented, now) ==>
              Reconnect(h.t, client, presented, now, cap).1.value.snapshot.conversation == k
    ensures forall k, j, other :: AcceptsFor(h, k, presented, now) && AcceptsFor(h, j, other, now) ==>
            (k == j <==> presented == other)
  {
    if HasMatch(h.t, presented) {
      var k := FirstMatch(h.t, presented);
      assert h.latest[k] == presented;
      assert !GraceOver(h.t.leases[k], now) ==> AcceptsFor(h, k, presented, now);
    }
    forall k | AcceptsFor(h, k, presented, now) ensures HasMatch(h.t, presented) && FirstMatch(h.t, presented) == k {
      assert Matches(h.t, k, presented);
      assert Matches(h.t, FirstMatch(h.t, presented), presented);
    }
  }

  /** A capability that was drawn and is no live lease's latest. */
  ghost predicate Dead(h: Host, presented: Capability) {
    presented in h.drawn && forall k :: k in h.t.leases && k in h.latest ==> h.latest[k] != presented
  }

  lemma {:induction false} DeadStep(h: Host, e: Event, presented: Capability)
    requires Consistent(h) && Enabled(h, e) && Dead(h, presented)
    ensures Dead(Apply(h, e), presented)
  {
    ConsistentStep(h, e);
  }

  /** Once dead, a capability is refused in every later state of every run. */
  lemma {:induction false} DeadForever(h: Host, es: seq<Event>, presented: Capability, client: ClientId, now: Instant,
                                       cap: Capability)
    requires Consistent(h) && Legal(h, es) && Dead(h, presented)
    ensures Reconnect(Final(h, es).t, client, presented, now, cap) == (Final(h, es).t, Err(InvalidReconnect))
    decreases |es|
  {
    if es == [] {
      assert forall k :: k in h.t.leases ==> !Matches(h.t, k, presented);
    } else {
      DeadStep(h, es[0], presented);
      ConsistentStep(h, es[0]);
      DeadForever(Apply(h, es[0]), es[1..], presented, client, now, cap);
    }
  }

  /** Single use: a successful reconnect, and any other grant or end of the lease of k,
      kills the capability that was current for k. */
  lemma CapabilityDies(h: Host, e: Event, k: Conversation)
    requires Consistent(h) && Enabled(h, e) && k in h.t.leases
    requires (Grants(e) && Touches(h.t, e, k)) || k !in Apply(h, e).t.leases
    ensures Dead(Apply(h, e), h.latest[k])
  {
    ConsistentStep(h, e);
  }

  /** Neither a grant on k nor the end of its lease. */
  ghost predicate Spares(h: Host, e: Event, k: Conversation) {
    !(Grants(e) && Touches(h.t, e, k)) && k in Apply(h, e).t.leases
  }

  /** It survives everything else: the lease stands as it was, or as its disconnect leaves
      it, and its latest capability is the same. */
  lemma CapabilitySurvives(h: Host, e: Event, k: Conversation)
    requires Consistent(h) && Enabled(h, e) && k in h.t.leases && Spares(h, e, k)
    ensures k in Apply(h, e).latest && Apply(h, e).latest[k] == h.latest[k]
    ensures Apply(h, e).t.leases[k] ==
            if Touches(h.t, e, k) then Dropped(h.t, k, e.reason, e.now, e.grace) else h.t.leases[k]
  {
    ConsistentStep(h, e);
  }

  ghost predicate SparesAll(h: Host, es: seq<Event>, k: Conversation)
    decreases |es|
  {
    es == [] || (Spares(h, es[0], k) && SparesAll(Apply(h, es[0]), es[1..], k))
  }

  /** A reconnecting lease that is spared keeps its lease and capability over every run. */
  lemma {:induction false} GraceIsKept(h: Host, es: seq<Event>, k: Conversation)
    requires Consistent(h) && Legal(h, es) && SparesAll(h, es, k)
    requires k in h.t.leases && h.t.leases[k].state == Reconnecting
    ensures var h' := Final(h, es);
            && Consistent(h') && k in h'.t.leases && h'.t.leases[k] == h.t.leases[k]
            && k in h'.latest && h'.latest[k] == h.latest[k]
    decreases |es|
  {
    if es != [] {
      ConsistentStep(h, es[0]);
      CapabilitySurvives(h, es[0], k);
      GraceIsKept(Apply(h, es[0]), es[1..], k);
    }
  }

  /** Over every run after a disconnect, as long as nothing is granted on k and its lease has
      not ended, the capability from before the disconnect is accepted strictly until the
      deadline, and the token of that disconnect expires the lease exactly from then on. */
  lemma SurvivesUntilTheDeadline(h: Host, client: ClientId, reason: Reason, now: Instant, grace: nat, es: seq<Event>,
                                 k: Conversation, later: Instant)
    requires Consistent(h) && k in HeldBy(h.t, client)
    requires Legal(Apply(h, DisconnectEvent(client, reason, now, grace)), es)
    requires SparesAll(Apply(h, DisconnectEvent(client, reason, now, grace)), es, k)
    ensures var h' := Final(Apply(h, DisconnectEvent(client, reason, now, grace)), es);
            && (AcceptsFor(h', k, h.latest[k], later) <==> later < Deadline(now, grace))
            && (Expires(h'.t, DisconnectReport(h.t, k, reason, now, grace).1, later) <==> later >= Deadline(now, grace))
  {
    var e := DisconnectEvent(client, reason, now, grace);
    DisconnectKeepsConsistency(h, client, reason, now, grace);
    CapabilitySurvives(h, e, k);
    GraceIsKept(Apply(h, e), es, k);
    DisconnectGrace(h, client, reason, now, grace, k, later);
  }

  /** After a disconnect the capability is accepted strictly before the deadline, and the
      token of that very disconnect expires the lease exactly from the deadline on. */
  lemma DisconnectGrace(h: Host, client: ClientId, reason: Reason, now: Instant, grace: nat, k: Conversation,
                        later: Instant)
    requires Consistent(h) && k in HeldBy(h.t, client)
    ensures var h' := Apply(h, DisconnectEvent(client, reason, now, grace));
            var token := DisconnectReport(h.t, k, reason, now, grace).1;
            && token.deadline == Deadline(now, grace)
            && (AcceptsFor(h', k, h.latest[k], later) <==> later < token.deadline)
            && (Expires(h'.t, token, later) <==> later >= token.deadline)
  {
  }

  /** For any reconnecting lease, reconnecting with its capability and expiring it with the
      current token are complementary in time: at each instant exactly one succeeds. */
  lemma ReconnectOrExpire(h: Host, k: Conversation, now: Instant, client: ClientId, cap: Capability, deadline: Instant)
    requires Consistent(h) && k in h.t.leases && h.t.leases[k].state == Reconnecting
    ensures var token := Expiry(k, h.t.leases[k].generation, deadline);
            Reconnect(h.t, client, h.latest[k], now, cap).1.Ok? <==> Expire(h.t, token, now).1.None?
  {
    AcceptanceIsLatest(h, client, h.latest[k], now, cap);
    assert forall j :: AcceptsFor(h, j, h.latest[k], now) ==> j == k;
    assert AcceptsFor(h, k, h.latest[k], now) <==> !GraceOver(h.t.leases[k], now);
  }
}
