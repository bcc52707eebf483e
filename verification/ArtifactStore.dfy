/** Publication into the content-addressed artifact store, raced by crashes and recovery.

    A directory maps names to inodes and an inode holds bytes.  Puts and recovery passes
    interleave one file operation at a time.  The hash is any function of bytes: nothing
    here needs it to be injective.  Which inodes are locked can be read off the phases, so
    a crash releases locks; the invariants below never mention them. */
module ArtifactStore {
  type Bytes = seq<bv8>
  type Hash = nat
  type Inode = nat
  type Pid = nat

  datatype Name = Published(hash: Hash) | Staging(uuid: nat)

  /** `put_bounded` knows its bytes; `put_file_bounded` only the length it was declared. */
  datatype Source = Known(bytes: Bytes) | Streamed(declared: nat)

  datatype Outcome = Created | Existed | Failed

  datatype Phase =
    | Checking                                   // does the final path exist?
    | Creating                                   // about to create the staging file
    | Opened(uuid: nat, inode: Inode)            // created, not yet locked
    | Writing(uuid: nat, inode: Inode)           // locked
    | Linking(uuid: nat, inode: Inode)           // handle and lock dropped
    | Verifying(uuid: nat)                       // the link found the final path taken
    | Cleaning(uuid: nat, outcome: Outcome)      // about to remove the staging file
    | Done(outcome: Outcome)

  /** A put; `written` is what it wrote to its staging file and fed to the hasher. */
  datatype Put = Put(source: Source, written: Bytes, phase: Phase)

  /** A recovery pass at one staging name. */
  datatype Recovery =
    | Idle
    | Visiting(name: Name, inode: Inode)
    | Locked(name: Name, inode: Inode)
    | Removing(name: Name)

  datatype Store = Store(
    names: map<Name, Inode>,
    inodes: map<Inode, Bytes>,
    puts: map<Pid, Put>,
    recoveries: map<Pid, Recovery>,
    uuids: set<nat>,               // every UUID drawn so far
    pids: set<Pid>,                // every put begun so far
    links: seq<(Pid, Hash)>)       // every successful hard link, in order

  datatype Event =
    | BeginPut(pid: Pid, source: Source)
    | Check(pid: Pid)
    | Create(pid: Pid, uuid: nat, inode: Inode)
    | Lock(pid: Pid)
    | Write(pid: Pid, chunk: Bytes)
    | Finish(pid: Pid)
    | Link(pid: Pid)
    | Verify(pid: Pid)
    | Fail(pid: Pid)
    | Clean(pid: Pid)
    | Crash(pid: Pid)
    | BeginRecovery(pid: Pid)
    | Visit(pid: Pid, name: Name)
    | LockFile(pid: Pid)
    | Unlock(pid: Pid)
    | Remove(pid: Pid)
    | Retain(pid: Pid)
    | CrashRecovery(pid: Pid)

  predicate IsLocked(s: Store, i: Inode) {
    || (exists p :: p in s.puts && s.puts[p].phase.Writing? && s.puts[p].phase.inode == i)
    || (exists r :: r in s.recoveries && s.recoveries[r].Locked? && s.recoveries[r].inode == i)
  }

  /** The put has written everything it has to. */
  predicate Complete(p: Put) {
    match p.source
    case Known(bytes) => p.written == bytes
    case Streamed(declared) => |p.written| == declared
  }

  predicate MayWrite(p: Put, chunk: Bytes) {
    p.source.Known? ==> p.written + chunk <= p.source.bytes
  }

  predicate Enabled(s: Store, e: Event) {
    match e
    case BeginPut(p, _) => p !in s.pids
    case Check(p) => p in s.puts && s.puts[p].phase.Checking? && s.puts[p].source.Known?
    case Create(p, u, i) => p in s.puts && s.puts[p].phase.Creating? && u !in s.uuids && i !in s.inodes
    case Lock(p) => p in s.puts && s.puts[p].phase.Opened? && !IsLocked(s, s.puts[p].phase.inode)
    case Write(p, chunk) =>
      && p in s.puts && s.puts[p].phase.Writing? && s.puts[p].phase.inode in s.inodes
      && MayWrite(s.puts[p], chunk)
    case Finish(p) => p in s.puts && s.puts[p].phase.Writing? && Complete(s.puts[p])
    case Link(p) => p in s.puts && s.puts[p].phase.Linking?
    case Verify(p) => p in s.puts && s.puts[p].phase.Verifying?
    case Fail(p) =>
      && p in s.puts
      && var f := s.puts[p].phase; (f.Opened? || f.Writing? || f.Linking? || f.Verifying?)
    case Clean(p) => p in s.puts && s.puts[p].phase.Cleaning?
    case Crash(p) => p in s.puts
    case BeginRecovery(r) => r !in s.recoveries
    case Visit(r, n) => r in s.recoveries && s.recoveries[r].Idle? && n in s.names && n.Staging?
    case LockFile(r) => r in s.recoveries && s.recoveries[r].Visiting? && !IsLocked(s, s.recoveries[r].inode)
    case Unlock(r) => r in s.recoveries && s.recoveries[r].Locked?
    case Remove(r) => r in s.recoveries && s.recoveries[r].Removing?
    case Retain(r) => r in s.recoveries && s.recoveries[r].Visiting? && IsLocked(s, s.recoveries[r].inode)
    case CrashRecovery(r) => r in s.recoveries
  }

  function WithPhase(s: Store, pid: Pid, f: Phase): Store
    requires pid in s.puts
  {
    s.(puts := s.puts[pid := s.puts[pid].(phase := f)])
  }

  /** `verify_path`: the published file has the expected length and hash. */
  predicate Verified(hash: Bytes -> Hash, s: Store, written: Bytes) {
    var n := Published(hash(written));
    n in s.names && s.names[n] in s.inodes
    && |s.inodes[s.names[n]]| == |written| && hash(s.inodes[s.names[n]]) == hash(written)
  }

  function AfterLink(hash: Bytes -> Hash, s: Store, pid: Pid): Store
    requires pid in s.puts && s.puts[pid].phase.Linking?
  {
    var put := s.puts[pid];
    var from, to := Staging(put.phase.uuid), Published(hash(put.written));
    if from !in s.names then WithPhase(s, pid, Cleaning(put.phase.uuid, Failed))
    else if to in s.names then WithPhase(s, pid, Verifying(put.phase.uuid))
    else WithPhase(s, pid, Cleaning(put.phase.uuid, Created)).(names := s.names[to := s.names[from]],
                                                                links := s.links + [(pid, hash(put.written))])
  }

  function Apply(hash: Bytes -> Hash, s: Store, e: Event): Store
    requires Enabled(s, e)
  {
    match e
    case BeginPut(p, source) =>
      s.(puts := s.puts[p := Put(source, [], if source.Known? then Checking else Creating)], pids := s.pids + {p})
    case Check(p) =>
      var bytes := s.puts[p].source.bytes;
      if Published(hash(bytes)) !in s.names then WithPhase(s, p, Creating)
      else
        var r := if Verified(hash, s, bytes) then Existed else Failed;
        s.(puts := s.puts[p := Put(s.puts[p].source, bytes, Done(r))])
    case Create(p, u, i) =>
      WithPhase(s, p, Opened(u, i)).(
        names := s.names[Staging(u) := i], inodes := s.inodes[i := []], uuids := s.uuids + {u})
    case Lock(p) => WithPhase(s, p, Writing(s.puts[p].phase.uuid, s.puts[p].phase.inode))
    case Write(p, chunk) =>
      var put := s.puts[p];
      s.(puts := s.puts[p := put.(written := put.written + chunk)],
         inodes := s.inodes[put.phase.inode := s.inodes[put.phase.inode] + chunk])
    case Finish(p) => WithPhase(s, p, Linking(s.puts[p].phase.uuid, s.puts[p].phase.inode))
    case Link(p) => AfterLink(hash, s, p)
    case Verify(p) =>
      WithPhase(s, p, Cleaning(s.puts[p].phase.uuid, if Verified(hash, s, s.puts[p].written) then Existed else Failed))
    case Fail(p) => WithPhase(s, p, Cleaning(s.puts[p].phase.uuid, Failed))
    case Clean(p) =>
      WithPhase(s, p, Done(s.puts[p].phase.outcome)).(names := s.names - {Staging(s.puts[p].phase.uuid)})
    case Crash(p) => s.(puts := s.puts - {p})
    case BeginRecovery(r) => s.(recoveries := s.recoveries[r := Idle])
    case Visit(r, n) => s.(recoveries := s.recoveries[r := Visiting(n, s.names[n])])
    case LockFile(r) => s.(recoveries := s.recoveries[r := Locked(s.recoveries[r].name, s.recoveries[r].inode)])
    case Unlock(r) => s.(recoveries := s.recoveries[r := Removing(s.recoveries[r].name)])
    case Remove(r) => s.(names := s.names - {s.recoveries[r].name}, recoveries := s.recoveries[r := Idle])
    case Retain(r) => s.(recoveries := s.recoveries[r := Idle])
    case CrashRecovery(r) => s.(recoveries := s.recoveries - {r})
  }

  predicate Legal(hash: Bytes -> Hash, s: Store, es: seq<Event>)
    decreases |es|
  {
    es == [] || (Enabled(s, es[0]) && Legal(hash, Apply(hash, s, es[0]), es[1..]))
  }

  function Final(hash: Bytes -> Hash, s: Store, es: seq<Event>): Store
    requires Legal(hash, s, es)
    decreases |es|
  {
    if es == [] then s else Final(hash, Apply(hash, s, es[0]), es[1..])
  }

  // -------------------------------------------------------------- invariants

  /** Every hash-named file holds bytes hashing to its name. */
  ghost predicate Whole(hash: Bytes -> Hash, s: Store) {
    forall h :: Published(h) in s.names ==>
        s.names[Published(h)] in s.inodes && hash(s.inodes[s.names[Published(h)]]) == h
  }

  predicate Stages(f: Phase) {
    f.Opened? || f.Writing? || f.Linking?
  }

  /** A put's staging inode holds exactly what it wrote and no published name reaches it. */
  ghost predicate Staged(s: Store, p: Pid)
    requires p in s.puts && Stages(s.puts[p].phase)
  {
    var put := s.puts[p];
    var f := put.phase;
    && f.uuid in s.uuids && f.inode in s.inodes && s.inodes[f.inode] == put.written
    && (Staging(f.uuid) in s.names ==> s.names[Staging(f.uuid)] == f.inode)
    && (forall n :: n in s.names && s.names[n] == f.inode ==> n == Staging(f.uuid))
    && (f.Opened? ==> put.written == [])
    && (f.Linking? ==> Complete(put))
  }

  ghost predicate Private(s: Store) {
    && (forall n :: n in s.names ==> s.names[n] in s.inodes && (n.Staging? ==> n.uuid in s.uuids))
    && (forall p :: p in s.puts ==> p in s.pids)
    && (forall p :: p in s.puts && Stages(s.puts[p].phase) ==> Staged(s, p))
    && (forall p, q :: p in s.puts && q in s.puts && p != q && Stages(s.puts[p].phase) && Stages(s.puts[q].phase) ==>
          s.puts[p].phase.inode != s.puts[q].phase.inode && s.puts[p].phase.uuid != s.puts[q].phase.uuid)
    && (forall p :: p in s.puts && s.puts[p].phase.Creating? ==> s.puts[p].written == [])
    && (forall p :: p in s.puts && s.puts[p].phase.Checking? ==> s.puts[p].written == [])
    && (forall r :: r in s.recoveries && !s.recoveries[r].Idle? ==> s.recoveries[r].name.Staging?)
  }

  lemma {:induction false} PrivateCreate(hash: Bytes -> Hash, s: Store, p: Pid, u: nat, i: Inode)
    requires Private(s) && Enabled(s, Create(p, u, i))
    ensures Private(Apply(hash, s, Create(p, u, i)))
  {
    var s' := Apply(hash, s, Create(p, u, i));
    forall q | q in s'.puts && Stages(s'.puts[q].phase) ensures Staged(s', q) {
      assert q != p ==> Staged(s, q);
    }
  }

  lemma {:induction false} PrivateWrite(hash: Bytes -> Hash, s: Store, p: Pid, chunk: Bytes)
    requires Private(s) && Enabled(s, Write(p, chunk))
    ensures Private(Apply(hash, s, Write(p, chunk)))
  {
    var s' := Apply(hash, s, Write(p, chunk));
    forall q | q in s'.puts && Stages(s'.puts[q].phase) ensures Staged(s', q) {
      assert Staged(s, q);
    }
  }

  lemma {:induction false} PrivateLink(hash: Bytes -> Hash, s: Store, p: Pid)
    requires Private(s) && Enabled(s, Link(p))
    ensures Private(Apply(hash, s, Link(p)))
  {
    var s' := Apply(hash, s, Link(p));
    assert Staged(s, p);
    forall q | q in s'.puts && Stages(s'.puts[q].phase) ensures Staged(s', q) {
      assert Staged(s, q) && q != p;
    }
  }

  /** The events that only move one put to a phase with the same staging file, or out of staging. */
  lemma {:induction false} PrivateMove(s: Store, s': Store, p: Pid)
    requires Private(s) && p in s.puts
    requires s'.names.Keys <= s.names.Keys && forall n :: n in s'.names ==> s'.names[n] == s.names[n]
    requires s' == s.(puts := s'.puts, names := s'.names)
    requires s'.puts == s.puts - {p} || (p in s'.puts && s'.puts == s.puts[p := s'.puts[p]])
    requires p in s'.puts ==>
               var f, f' := s.puts[p].phase, s'.puts[p].phase;
               && (Stages(f') ==> Stages(f) && f.uuid == f'.uuid && f.inode == f'.inode
                                  && s'.puts[p] == s.puts[p].(phase := f')
                                  && !f'.Opened? && (f'.Linking? ==> Complete(s.puts[p])))
               && (f'.Creating? || f'.Checking? ==> s'.puts[p].written == [])
    ensures Private(s')
  {
    forall q | q in s'.puts && Stages(s'.puts[q].phase) ensures Staged(s', q) {
      assert Staged(s, q);
    }
  }

  lemma {:induction false} PrivateRecovery(hash: Bytes -> Hash, s: Store, e: Event)
    requires Private(s) && Enabled(s, e)
    requires e.BeginRecovery? || e.Visit? || e.LockFile? || e.Unlock? || e.Remove? || e.Retain? || e.CrashRecovery?
    ensures Private(Apply(hash, s, e))
  {
    var s' := Apply(hash, s, e);
    forall q | q in s'.puts && Stages(s'.puts[q].phase) ensures Staged(s', q) {
      assert Staged(s, q);
    }
  }

  lemma {:induction false} PrivateBegin(hash: Bytes -> Hash, s: Store, p: Pid, source: Source)
    requires Private(s) && Enabled(s, BeginPut(p, source))
    ensures Private(Apply(hash, s, BeginPut(p, source)))
  {
    var s' := Apply(hash, s, BeginPut(p, source));
    forall q | q in s'.puts && Stages(s'.puts[q].phase) ensures Staged(s', q) {
      assert Staged(s, q);
    }
  }

  lemma {:induction false} PrivateStep(hash: Bytes -> Hash, s: Store, e: Event)
    requires Private(s) && Enabled(s, e)
    ensures Private(Apply(hash, s, e))
  {
    if e.Create? {
      PrivateCreate(hash, s, e.pid, e.uuid, e.inode);
    } else if e.Write? {
      PrivateWrite(hash, s, e.pid, e.chunk);
    } else if e.Link? {
      PrivateLink(hash, s, e.pid);
    } else if e.BeginPut? {
      PrivateBegin(hash, s, e.pid, e.source);
    } else if e.Check? || e.Lock? || e.Finish? || e.Verify? || e.Fail? || e.Clean? || e.Crash? {
      PrivateMove(s, Apply(hash, s, e), e.pid);
    } else {
      PrivateRecovery(hash, s, e);
    }
  }

  lemma {:induction false} WholeStep(hash: Bytes -> Hash, s: Store, e: Event)
    requires Private(s) && Whole(hash, s) && Enabled(s, e)
    ensures Whole(hash, Apply(hash, s, e))
  {
  }

  // ------------------------------------------------------- what stays published

  /** What is published stays published, under the same inode, with the same bytes. */
  ghost predicate Preserves(s: Store, s': Store) {
    forall h :: Published(h) in s.names && s.names[Published(h)] in s.inodes ==>
      && Published(h) in s'.names && s'.names[Published(h)] == s.names[Published(h)]
      && s.names[Published(h)] in s'.inodes && s'.inodes[s.names[Published(h)]] == s.inodes[s.names[Published(h)]]
  }

  lemma {:induction false} PreservesStep(hash: Bytes -> Hash, s: Store, e: Event)
    requires Private(s) && Enabled(s, e)
    ensures Preserves(s, Apply(hash, s, e))
  {
    if e.Write? {
      assert Staged(s, e.pid);
    }
  }

  // --------------------------------------------------------------- who created

  predicate Reports(put: Put, o: Outcome) {
    (put.phase.Cleaning? || put.phase.Done?) && put.phase.outcome == o
  }

  /** The put behind a link began, and unless it crashed since it reports having created. */
  predicate Linked(hash: Bytes -> Hash, s: Store, link: (Pid, Hash)) {
    && link.0 in s.pids
    && (link.0 in s.puts ==> Reports(s.puts[link.0], Created) && hash(s.puts[link.0].written) == link.1)
  }

  /** The log names each hash once, and with `born` exactly the published ones. */
  ghost predicate LogNames(born: set<Hash>, s: Store) {
    && (forall i, j :: 0 <= i < j < |s.links| ==> s.links[i].1 != s.links[j].1)
    && (forall i :: 0 <= i < |s.links| ==> Published(s.links[i].1) in s.names && s.links[i].1 !in born)
    && (forall h :: Published(h) in s.names ==> h in born || exists i :: 0 <= i < |s.links| && s.links[i].1 == h)
    && (forall h :: h in born ==> Published(h) in s.names)
  }

  /** The link log against the directory, for the hashes `born` published at the start. */
  ghost predicate Attributed(hash: Bytes -> Hash, born: set<Hash>, s: Store) {
    && LogNames(born, s)
    && (forall i :: 0 <= i < |s.links| ==> Linked(hash, s, s.links[i]))
    && (forall p :: p in s.puts && Reports(s.puts[p], Created) ==> (p, hash(s.puts[p].written)) in s.links)
    && (forall p :: p in s.puts && Reports(s.puts[p], Existed) ==> Verified(hash, s, s.puts[p].written))
  }

  lemma {:induction false} LogNamesGrow(born: set<Hash>, s: Store, s': Store, p: Pid, h: Hash)
    requires LogNames(born, s) && Published(h) !in s.names
    requires s'.links == s.links + [(p, h)] && s'.names.Keys == s.names.Keys + {Published(h)}
    ensures LogNames(born, s')
  {
    var n := |s.links|;
    assert s'.links[n] == (p, h);
    forall k | Published(k) in s'.names ensures k in born || exists i :: 0 <= i < |s'.links| && s'.links[i].1 == k {
      if k == h {
        assert s'.links[n].1 == k;
      } else if k !in born {
        var i :| 0 <= i < n && s.links[i].1 == k;
        assert s'.links[i].1 == k;
      }
    }
  }

  lemma {:induction false} LogGrows(hash: Bytes -> Hash, born: set<Hash>, s: Store, p: Pid)
    requires Private(s) && Attributed(hash, born, s) && Enabled(s, Link(p)) && Apply(hash, s, Link(p)).links != s.links
    ensures Attributed(hash, born, Apply(hash, s, Link(p)))
  {
    var s' := Apply(hash, s, Link(p));
    var h, n := hash(s.puts[p].written), |s.links|;
    assert s'.links == s.links + [(p, h)] && s'.names.Keys == s.names.Keys + {Published(h)};
    LogNamesGrow(born, s, s', p, h);
    forall q | q in s'.puts && Reports(s'.puts[q], Existed) ensures Verified(hash, s', s'.puts[q].written) {
      assert q != p && Verified(hash, s, s.puts[q].written);
    }
    forall i | 0 <= i < |s'.links| ensures Linked(hash, s', s'.links[i]) {
      if i < n {
        LinkStands(hash, s, Link(p), s.links[i]);
      }
    }
  }

  lemma {:induction false} LogStands(hash: Bytes -> Hash, born: set<Hash>, s: Store, s': Store)
    requires Attributed(hash, born, s) && s'.links == s.links
    requires forall h :: Published(h) in s'.names <==> Published(h) in s.names
    requires forall p :: p in s'.puts && Reports(s'.puts[p], Created) ==> (p, hash(s'.puts[p].written)) in s.links
    requires forall p :: p in s'.puts && Reports(s'.puts[p], Existed) ==> Verified(hash, s', s'.puts[p].written)
    requires forall i :: 0 <= i < |s.links| ==> Linked(hash, s', s.links[i])
    ensures Attributed(hash, born, s')
  {
  }

  /** A linked put only cleans up or crashes, and its name is not used again. */
  lemma LinkStands(hash: Bytes -> Hash, s: Store, e: Event, link: (Pid, Hash))
    requires Private(s) && Enabled(s, e) && Linked(hash, s, link)
    ensures Linked(hash, Apply(hash, s, e), link)
  {
  }

  lemma {:induction false} VerifiedStands(hash: Bytes -> Hash, s: Store, s': Store, written: Bytes)
    requires Preserves(s, s') && Verified(hash, s, written)
    ensures Verified(hash, s', written)
  {
  }

  /** A put that reports Existed did so already, or just verified the published file. */
  lemma ExistedFrom(hash: Bytes -> Hash, s: Store, e: Event, p: Pid)
    requires Enabled(s, e) && p in Apply(hash, s, e).puts && Reports(Apply(hash, s, e).puts[p], Existed)
    ensures var written := Apply(hash, s, e).puts[p].written;
            || Verified(hash, s, written)
            || (p in s.puts && Reports(s.puts[p], Existed) && s.puts[p].written == written)
  {
  }

  lemma {:induction false} ExistedStands(hash: Bytes -> Hash, born: set<Hash>, s: Store, e: Event, p: Pid)
    requires Private(s) && Attributed(hash, born, s) && Enabled(s, e)
    requires p in Apply(hash, s, e).puts && Reports(Apply(hash, s, e).puts[p], Existed)
    ensures Verified(hash, Apply(hash, s, e), Apply(hash, s, e).puts[p].written)
  {
    var s' := Apply(hash, s, e);
    PreservesStep(hash, s, e);
    ExistedFrom(hash, s, e, p);
    VerifiedStands(hash, s, s', s'.puts[p].written);
  }

  lemma {:induction false} CreatedStands(hash: Bytes -> Hash, born: set<Hash>, s: Store, e: Event, p: Pid)
    requires Attributed(hash, born, s) && Enabled(s, e) && Apply(hash, s, e).links == s.links
    requires p in Apply(hash, s, e).puts && Reports(Apply(hash, s, e).puts[p], Created)
    ensures (p, hash(Apply(hash, s, e).puts[p].written)) in s.links
  {
    assert p in s.puts && Reports(s.puts[p], Created);
  }

  lemma PublishedNamesStand(hash: Bytes -> Hash, s: Store, e: Event)
    requires Private(s) && Enabled(s, e) && Apply(hash, s, e).links == s.links
    ensures forall h :: Published(h) in Apply(hash, s, e).names <==> Published(h) in s.names
  {
    if e.Link? {
      UnlinkedNamesStand(hash, s, e.pid);
    } else if e.Remove? {
      assert s.recoveries[e.pid].name.Staging?;
    }
  }

  lemma UnlinkedNamesStand(hash: Bytes -> Hash, s: Store, p: Pid)
    requires Enabled(s, Link(p)) && Apply(hash, s, Link(p)).links == s.links
    ensures Apply(hash, s, Link(p)).names == s.names
  {
  }

  lemma {:induction false} AttributedStep(hash: Bytes -> Hash, born: set<Hash>, s: Store, e: Event)
    requires Private(s) && Attributed(hash, born, s) && Enabled(s, e)
    ensures Attributed(hash, born, Apply(hash, s, e))
  {
    if Apply(hash, s, e).links == s.links {
      var s' := Apply(hash, s, e);
      forall p | p in s'.puts && Reports(s'.puts[p], Created) ensures (p, hash(s'.puts[p].written)) in s.links {
        CreatedStands(hash, born, s, e, p);
      }
      forall p | p in s'.puts && Reports(s'.puts[p], Existed) ensures Verified(hash, s', s'.puts[p].written) {
        ExistedStands(hash, born, s, e, p);
      }
      PublishedNamesStand(hash, s, e);
      forall i | 0 <= i < |s.links| ensures Linked(hash, s', s.links[i]) {
        LinkStands(hash, s, e, s.links[i]);
      }
      LogStands(hash, born, s, s');
    } else {
      LogGrows(hash, born, s, e.pid);
    }
  }

  // ------------------------------------------------------------------ every run

  /** A directory as it may be found: whole, with any abandoned staging files, nobody at work. */
  ghost predicate Found(hash: Bytes -> Hash, born: set<Hash>, s: Store) {
    && s.puts == map[] && s.recoveries == map[] && s.links == [] && Whole(hash, s)
    && (forall n :: n in s.names ==> s.names[n] in s.inodes && (n.Staging? ==> n.uuid in s.uuids))
    && (forall h :: h in born <==> Published(h) in s.names)
  }

  ghost predicate Safe(hash: Bytes -> Hash, born: set<Hash>, s: Store) {
    Private(s) && Whole(hash, s) && Attributed(hash, born, s)
  }

  lemma {:induction false} SafeStep(hash: Bytes -> Hash, born: set<Hash>, s: Store, e: Event)
    requires Safe(hash, born, s) && Enabled(s, e)
    ensures Safe(hash, born, Apply(hash, s, e)) && Preserves(s, Apply(hash, s, e))
  {
    PrivateStep(hash, s, e);
    WholeStep(hash, s, e);
    AttributedStep(hash, born, s, e);
    PreservesStep(hash, s, e);
  }

  lemma {:induction false} SafeRun(hash: Bytes -> Hash, born: set<Hash>, s: Store, es: seq<Event>)
    requires Safe(hash, born, s) && Legal(hash, s, es)
    ensures Safe(hash, born, Final(hash, s, es)) && Preserves(s, Final(hash, s, es))
    decreases |es|
  {
    if es != [] {
      SafeStep(hash, born, s, es[0]);
      SafeRun(hash, born, Apply(hash, s, es[0]), es[1..]);
    }
  }

  /** However puts, crashes and recovery passes interleave, every hash-named file holds bytes
      hashing to its name, and from any moment on it is never removed, replaced or changed. */
  lemma PublishedAreWholeForever(hash: Bytes -> Hash, born: set<Hash>, s: Store, es: seq<Event>, later: seq<Event>)
    requires Found(hash, born, s) && Legal(hash, s, es) && Legal(hash, Final(hash, s, es), later)
    ensures Whole(hash, Final(hash, s, es))
    ensures Preserves(Final(hash, s, es), Final(hash, Final(hash, s, es), later))
  {
    SafeRun(hash, born, s, es);
    SafeRun(hash, born, Final(hash, s, es), later);
  }

  /** Of puts of equal bytes at most one reports `was_created`; once one reports success for
      bytes not published at the start, exactly one hard link for them ever succeeded. */
  lemma ExactlyOneCreates(hash: Bytes -> Hash, born: set<Hash>, s0: Store, es: seq<Event>, p: Pid, q: Pid)
    requires Found(hash, born, s0) && Legal(hash, s0, es)
    requires var s := Final(hash, s0, es); p in s.puts && q in s.puts && s.puts[p].written == s.puts[q].written
    ensures var s := Final(hash, s0, es);
            && (Reports(s.puts[p], Created) && Reports(s.puts[q], Created) ==> p == q)
            && (Reports(s.puts[p], Created) || Reports(s.puts[p], Existed) ==>
                  && Published(hash(s.puts[p].written)) in s.names
                  && (hash(s.puts[p].written) !in born ==> LinkedOnce(s, hash(s.puts[p].written))))
  {
    SafeRun(hash, born, s0, es);
    var s := Final(hash, s0, es);
    var h := hash(s.puts[p].written);
    if Published(h) in s.names && h !in born {
      var i :| 0 <= i < |s.links| && s.links[i].1 == h;
      assert LinkedOnce(s, h);
    }
  }

  ghost predicate LinkedOnce(s: Store, h: Hash) {
    exists i :: 0 <= i < |s.links| && s.links[i].1 == h
                && forall j :: 0 <= j < |s.links| && s.links[j].1 == h ==> j == i
  }

  lemma PassRemoves(hash: Bytes -> Hash, s: Store, r: Pid, name: Name)
    requires name.Staging? && name in s.names && r !in s.recoveries && !IsLocked(s, s.names[name])
    ensures Enabled(s, BeginRecovery(r))
    ensures var s1 := Apply(hash, s, BeginRecovery(r)); Enabled(s1, Visit(r, name))
    ensures var s2 := Apply(hash, Apply(hash, s, BeginRecovery(r)), Visit(r, name));
            && s2 == s.(recoveries := s.recoveries[r := Visiting(name, s.names[name])]) && Enabled(s2, LockFile(r))
  {
    var s2 := Apply(hash, Apply(hash, s, BeginRecovery(r)), Visit(r, name));
    assert s2.recoveries == s.recoveries[r := Visiting(name, s.names[name])];
    assert !IsLocked(s2, s.names[name]);
  }

  lemma PassEnds(hash: Bytes -> Hash, s: Store, r: Pid, name: Name)
    requires name in s.names && r in s.recoveries && s.recoveries[r] == Visiting(name, s.names[name])
    requires Enabled(s, LockFile(r))
    ensures var s3 := Apply(hash, s, LockFile(r));
            && Enabled(s3, Unlock(r))
            && Enabled(Apply(hash, s3, Unlock(r)), Remove(r))
            && Apply(hash, Apply(hash, s3, Unlock(r)), Remove(r))
               == s.(names := s.names - {name}, recoveries := s.recoveries[r := Idle])
  {
    var s3 := Apply(hash, s, LockFile(r));
    assert s3 == s.(recoveries := s.recoveries[r := Locked(name, s.names[name])]);
    var s4 := Apply(hash, s3, Unlock(r));
    assert s4 == s.(recoveries := s.recoveries[r := Removing(name)]) by {
      assert s4.recoveries == s.recoveries[r := Removing(name)];
    }
    assert Apply(hash, s4, Remove(r)).recoveries == s.recoveries[r := Idle];
  }

  /** A recovery pass over an unlocked staging file removes it and touches no file and no put. */
  lemma PassCollects(hash: Bytes -> Hash, s: Store, r: Pid, name: Name)
    requires name.Staging? && name in s.names && r !in s.recoveries && !IsLocked(s, s.names[name])
    ensures var pass := [BeginRecovery(r), Visit(r, name), LockFile(r), Unlock(r), Remove(r)];
            && Legal(hash, s, pass) && Final(hash, s, pass).names == s.names - {name}
            && Final(hash, s, pass).inodes == s.inodes && Final(hash, s, pass).puts == s.puts
  {
    PassRemoves(hash, s, r, name);
    var s1 := Apply(hash, s, BeginRecovery(r));
    var s2 := s.(recoveries := s.recoveries[r := Visiting(name, s.names[name])]);
    PassEnds(hash, s2, r, name);
    var s3 := Apply(hash, s2, LockFile(r));
    var s4 := Apply(hash, s3, Unlock(r));
    RunOfFive(hash, s, [BeginRecovery(r), Visit(r, name), LockFile(r), Unlock(r), Remove(r)], s1, s2, s3, s4,
              s2.(names := s.names - {name}, recoveries := s2.recoveries[r := Idle]));
  }

  /** What the lock does not give: it is dropped before the link, so a recovery pass may
      remove a live put's staging file then, and the put fails.  Only content is safe. */
  lemma RecoveryCanDefeatALink(hash: Bytes -> Hash, s: Store, p: Pid, r: Pid)
    requires p in s.puts && s.puts[p].phase.Linking? && Staging(s.puts[p].phase.uuid) in s.names
    requires r !in s.recoveries && !IsLocked(s, s.names[Staging(s.puts[p].phase.uuid)])
    ensures var name := Staging(s.puts[p].phase.uuid);
            var es := [BeginRecovery(r), Visit(r, name), LockFile(r), Unlock(r), Remove(r)];
            && Legal(hash, s, es) && Enabled(Final(hash, s, es), Link(p))
            && p in Apply(hash, Final(hash, s, es), Link(p)).puts
            && Reports(Apply(hash, Final(hash, s, es), Link(p)).puts[p], Failed)
  {
    var name := Staging(s.puts[p].phase.uuid);
    PassCollects(hash, s, r, name);
    LinkWithoutSource(hash, Final(hash, s, [BeginRecovery(r), Visit(r, name), LockFile(r), Unlock(r), Remove(r)]), p);
  }

  lemma LinkWithoutSource(hash: Bytes -> Hash, s: Store, p: Pid)
    requires p in s.puts && s.puts[p].phase.Linking? && Staging(s.puts[p].phase.uuid) !in s.names
    ensures Enabled(s, Link(p))
    ensures var t := Apply(hash, s, Link(p)); p in t.puts && Reports(t.puts[p], Failed)
  {
  }

  lemma {:induction false} RunOfFive(hash: Bytes -> Hash, s: Store, es: seq<Event>,
                                     s1: Store, s2: Store, s3: Store, s4: Store, s5: Store)
    requires |es| == 5
    requires Enabled(s, es[0]) && s1 == Apply(hash, s, es[0]) && Enabled(s1, es[1]) && s2 == Apply(hash, s1, es[1])
    requires Enabled(s2, es[2]) && s3 == Apply(hash, s2, es[2]) && Enabled(s3, es[3]) && s4 == Apply(hash, s3, es[3])
    requires Enabled(s4, es[4]) && s5 == Apply(hash, s4, es[4])
    ensures Legal(hash, s, es) && Final(hash, s, es) == s5
  {
    RunCons(hash, s4, es[4..], s5);
    RunCons(hash, s3, es[3..], s4);
    RunCons(hash, s2, es[2..], s3);
    RunCons(hash, s1, es[1..], s2);
    RunCons(hash, s, es, s1);
  }

  lemma {:induction false} RunCons(hash: Bytes -> Hash, s: Store, es: seq<Event>, s1: Store)
    requires es != [] && Enabled(s, es[0]) && Apply(hash, s, es[0]) == s1 && Legal(hash, s1, es[1..])
    ensures Legal(hash, s, es) && Final(hash, s, es) == Final(hash, s1, es[1..])
  {
  }
}
