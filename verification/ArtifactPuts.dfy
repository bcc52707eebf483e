/** What a put that reports success has published, in every interleaving, and what a put that
    nothing disturbs does to the store, in closed form. */
module ArtifactPuts {
  import opened ArtifactStore
  import opened ArtifactRecovery

  // ------------------------------------------------------------------- what success means

  /** The put wrote what it was given: the very bytes, or as many as were declared. */
  predicate Given(put: Put) {
    && (put.source.Known? ==> put.written == put.source.bytes)
    && (put.source.Streamed? ==> |put.written| == put.source.declared)
  }

  predicate Succeeded(put: Put) {
    Reports(put, Created) || Reports(put, Existed)
  }

  predicate HasWritten(put: Put) {
    put.phase.Linking? || put.phase.Verifying? || Succeeded(put)
  }

  /** The file named for the hash of what the put wrote. */
  ghost predicate PublishedAs(hash: Bytes -> Hash, s: Store, put: Put) {
    var n := Published(hash(put.written));
    && n in s.names && s.names[n] in s.inodes
    && (Reports(put, Created) ==> s.inodes[s.names[n]] == put.written)
    && |s.inodes[s.names[n]]| == |put.written| && hash(s.inodes[s.names[n]]) == hash(put.written)
  }

  ghost predicate Kept(hash: Bytes -> Hash, s: Store) {
    && (forall p :: p in s.puts && HasWritten(s.puts[p]) ==> Given(s.puts[p]))
    && (forall p :: p in s.puts && Succeeded(s.puts[p]) ==> PublishedAs(hash, s, s.puts[p]))
  }

  lemma OthersStay(hash: Bytes -> Hash, s: Store, e: Event, p: Pid)
    requires Enabled(s, e) && (IsRecovery(e) || e.pid != p) && p in Apply(hash, s, e).puts
    ensures p in s.puts && Apply(hash, s, e).puts[p] == s.puts[p]
  {
  }

  /** What a put has written is settled once it has written all; it gets there by two events. */
  lemma WritingSettles(hash: Bytes -> Hash, s: Store, e: Event, p: Pid)
    requires Enabled(s, e) && p in Apply(hash, s, e).puts && HasWritten(Apply(hash, s, e).puts[p])
    ensures p in s.puts
    ensures var put := Apply(hash, s, e).puts[p];
            || (e == Check(p) && Given(put))
            || (e == Finish(p) && Given(put))
            || (HasWritten(s.puts[p]) && put.written == s.puts[p].written && put.source == s.puts[p].source)
  {
    if IsRecovery(e) || e.pid != p {
      OthersStay(hash, s, e, p);
    }
  }

  /** A put comes to report success by one of three events, and then keeps its report. */
  lemma SuccessSettles(hash: Bytes -> Hash, s: Store, e: Event, p: Pid)
    requires Enabled(s, e) && p in Apply(hash, s, e).puts && Succeeded(Apply(hash, s, e).puts[p])
    ensures p in s.puts
    ensures var put := Apply(hash, s, e).puts[p];
            || (!Succeeded(s.puts[p]) && (e == Check(p) || e == Link(p) || e == Verify(p)))
            || (Succeeded(s.puts[p]) && put.written == s.puts[p].written
                && (Reports(put, Created) <==> Reports(s.puts[p], Created)))
  {
    if IsRecovery(e) || e.pid != p {
      OthersStay(hash, s, e, p);
    }
  }

  lemma PublishedByCheck(hash: Bytes -> Hash, s: Store, e: Event, p: Pid)
    requires (e == Check(p) || e == Verify(p)) && Enabled(s, e) && Succeeded(Apply(hash, s, e).puts[p])
    ensures PublishedAs(hash, Apply(hash, s, e), Apply(hash, s, e).puts[p])
  {
  }

  lemma PublishedByLink(hash: Bytes -> Hash, s: Store, p: Pid)
    requires Enabled(s, Link(p)) && Staged(s, p) && Succeeded(Apply(hash, s, Link(p)).puts[p])
    ensures PublishedAs(hash, Apply(hash, s, Link(p)), Apply(hash, s, Link(p)).puts[p])
  {
  }

  lemma PublishedAsStands(hash: Bytes -> Hash, s: Store, s': Store, put: Put, put': Put)
    requires Preserves(s, s') && PublishedAs(hash, s, put)
    requires put'.written == put.written && (Reports(put', Created) ==> Reports(put, Created))
    ensures PublishedAs(hash, s', put')
  {
  }

  lemma KeptStep(hash: Bytes -> Hash, s: Store, e: Event)
    requires Private(s) && Kept(hash, s) && Enabled(s, e)
    ensures Kept(hash, Apply(hash, s, e))
  {
    var s' := Apply(hash, s, e);
    forall p | p in s'.puts && HasWritten(s'.puts[p]) ensures Given(s'.puts[p]) {
      WritingSettles(hash, s, e, p);
    }
    forall p | p in s'.puts && Succeeded(s'.puts[p]) ensures PublishedAs(hash, s', s'.puts[p]) {
      SuccessSettles(hash, s, e, p);
      if Succeeded(s.puts[p]) {
        PreservesStep(hash, s, e);
        PublishedAsStands(hash, s, s', s.puts[p], s'.puts[p]);
      } else if e.Link? {
        PublishedByLink(hash, s, p);
      } else {
        PublishedByCheck(hash, s, e, p);
      }
    }
  }

  lemma {:induction false} KeptRun(hash: Bytes -> Hash, s: Store, es: seq<Event>)
    requires Private(s) && Kept(hash, s) && Legal(hash, s, es)
    ensures Kept(hash, Final(hash, s, es))
    decreases |es|
  {
    if es != [] {
      PrivateStep(hash, s, es[0]);
      KeptStep(hash, s, es[0]);
      KeptRun(hash, Apply(hash, s, es[0]), es[1..]);
    }
  }

  /** In every interleaving, a put that reports success wrote exactly what it was given, and
      the file named for its hash holds: its very bytes, if it created the file; as many bytes
      with the same hash, if it found the file there. */
  lemma SuccessMeansPublished(hash: Bytes -> Hash, born: set<Hash>, s0: Store, es: seq<Event>, p: Pid)
    requires Found(hash, born, s0) && Legal(hash, s0, es) && p in Final(hash, s0, es).puts
    requires var put := Final(hash, s0, es).puts[p]; Reports(put, Created) || Reports(put, Existed)
    ensures var s := Final(hash, s0, es);
            var put, n := s.puts[p], Published(hash(s.puts[p].written));
            && (forall bytes :: put.source == Known(bytes) ==> put.written == bytes)
            && (forall declared :: put.source == Streamed(declared) ==> |put.written| == declared)
            && n in s.names && s.names[n] in s.inodes
            && (Reports(put, Created) ==> s.inodes[s.names[n]] == put.written)
            && |s.inodes[s.names[n]]| == |put.written| && hash(s.inodes[s.names[n]]) == hash(put.written)
  {
    KeptRun(hash, s0, es);
    var s := Final(hash, s0, es);
    assert PublishedAs(hash, s, s.puts[p]) && Given(s.puts[p]);
  }

  /** While a put of known bytes is at its staging file, that file holds a beginning of them. */
  ghost predicate Begun(s: Store) {
    forall p :: p in s.puts && s.puts[p].source.Known? && Stages(s.puts[p].phase) ==>
        s.puts[p].written <= s.puts[p].source.bytes
  }

  lemma BegunStep(hash: Bytes -> Hash, s: Store, e: Event)
    requires Private(s) && Begun(s) && Enabled(s, e)
    ensures Begun(Apply(hash, s, e))
  {
    var s' := Apply(hash, s, e);
    forall p | p in s'.puts && s'.puts[p].source.Known? && Stages(s'.puts[p].phase)
      ensures s'.puts[p].written <= s'.puts[p].source.bytes
    {
      if IsRecovery(e) || e.pid != p {
        OthersStay(hash, s, e, p);
      }
    }
  }

  lemma {:induction false} BegunRun(hash: Bytes -> Hash, s: Store, es: seq<Event>)
    requires Private(s) && Begun(s) && Legal(hash, s, es)
    ensures Private(Final(hash, s, es)) && Begun(Final(hash, s, es))
    decreases |es|
  {
    if es != [] {
      PrivateStep(hash, s, es[0]);
      BegunStep(hash, s, es[0]);
      BegunRun(hash, Apply(hash, s, es[0]), es[1..]);
    }
  }

  /** In every interleaving, the staging file of a put of known bytes holds a beginning of those
      bytes, and nothing else ever. */
  lemma StagedIsABeginning(hash: Bytes -> Hash, born: set<Hash>, s0: Store, es: seq<Event>, p: Pid)
    requires Found(hash, born, s0) && Legal(hash, s0, es) && p in Final(hash, s0, es).puts
    requires var put := Final(hash, s0, es).puts[p];
             put.source.Known? && (put.phase.Opened? || put.phase.Writing? || put.phase.Linking?)
    ensures var s := Final(hash, s0, es);
            s.puts[p].phase.inode in s.inodes && s.inodes[s.puts[p].phase.inode] <= s.puts[p].source.bytes
  {
    BegunRun(hash, s0, es);
    assert Staged(Final(hash, s0, es), p);
  }

  // ------------------------------------------------------------------- the lock

  /** No two hold the lock of one file. */
  ghost predicate OneHolder(s: Store) {
    && (forall p, q :: p in s.puts && q in s.puts && p != q && s.puts[p].phase.Writing? && s.puts[q].phase.Writing? ==>
          s.puts[p].phase.inode != s.puts[q].phase.inode)
    && (forall p, r :: p in s.puts && r in s.recoveries && s.puts[p].phase.Writing? && s.recoveries[r].Locked? ==>
          s.puts[p].phase.inode != s.recoveries[r].inode)
    && (forall q, r :: q in s.recoveries && r in s.recoveries && q != r
                       && s.recoveries[q].Locked? && s.recoveries[r].Locked? ==>
          s.recoveries[q].inode != s.recoveries[r].inode)
  }

  /** Who writes after a step of a put wrote before it, or has just locked an unlocked file. */
  lemma WriterFrom(hash: Bytes -> Hash, s: Store, e: Event, p: Pid)
    requires Enabled(s, e) && !IsRecovery(e) && p in Apply(hash, s, e).puts && Apply(hash, s, e).puts[p].phase.Writing?
    ensures p in s.puts
    ensures var i := Apply(hash, s, e).puts[p].phase.inode;
            if e == Lock(p) then !IsLocked(s, i) else s.puts[p].phase.Writing? && s.puts[p].phase.inode == i
  {
    if e.pid != p {
      OthersStay(hash, s, e, p);
    }
  }

  lemma HoldersStay(s: Store, s': Store, e: Event)
    requires OneHolder(s) && s'.recoveries == s.recoveries
    requires forall p :: p in s'.puts && s'.puts[p].phase.Writing? ==>
               && p in s.puts
               && var i := s'.puts[p].phase.inode;
                  if e == Lock(p) then !IsLocked(s, i) else s.puts[p].phase.Writing? && s.puts[p].phase.inode == i
    ensures OneHolder(s')
  {
  }

  lemma OneHolderPutStep(hash: Bytes -> Hash, s: Store, e: Event)
    requires OneHolder(s) && Enabled(s, e) && !IsRecovery(e)
    ensures OneHolder(Apply(hash, s, e))
  {
    var s' := Apply(hash, s, e);
    forall p | p in s'.puts && s'.puts[p].phase.Writing?
      ensures p in s.puts
      ensures var i := s'.puts[p].phase.inode;
              if e == Lock(p) then !IsLocked(s, i) else s.puts[p].phase.Writing? && s.puts[p].phase.inode == i
    {
      WriterFrom(hash, s, e, p);
    }
    PutsLeaveRecoveries(hash, s, e);
    HoldersStay(s, s', e);
  }

  lemma PutsLeaveRecoveries(hash: Bytes -> Hash, s: Store, e: Event)
    requires Enabled(s, e) && !IsRecovery(e)
    ensures Apply(hash, s, e).recoveries == s.recoveries
  {
  }

  lemma OneHolderRecoveryStep(hash: Bytes -> Hash, s: Store, e: Event)
    requires OneHolder(s) && Enabled(s, e) && IsRecovery(e)
    ensures OneHolder(Apply(hash, s, e))
  {
  }

  lemma {:induction false} OneHolderRun(hash: Bytes -> Hash, s: Store, es: seq<Event>)
    requires OneHolder(s) && Legal(hash, s, es)
    ensures OneHolder(Final(hash, s, es))
    decreases |es|
  {
    if es != [] {
      if IsRecovery(es[0]) {
        OneHolderRecoveryStep(hash, s, es[0]);
      } else {
        OneHolderPutStep(hash, s, es[0]);
      }
      OneHolderRun(hash, Apply(hash, s, es[0]), es[1..]);
    }
  }

  /** In every interleaving a file's lock has at most one holder, put or recovery pass, and a pass
      that has a file open goes on to lock it exactly when nobody holds it, else leaves it alone. */
  lemma LocksExclude(hash: Bytes -> Hash, born: set<Hash>, s0: Store, es: seq<Event>, r: Pid)
    requires Found(hash, born, s0) && Legal(hash, s0, es)
    ensures OneHolder(Final(hash, s0, es))
    ensures var s := Final(hash, s0, es);
            r in s.recoveries && s.recoveries[r].Visiting? ==>
              var i := s.recoveries[r].inode;
              var held := (exists p :: p in s.puts && s.puts[p].phase.Writing? && s.puts[p].phase.inode == i)
                       || (exists q :: q in s.recoveries && s.recoveries[q].Locked? && s.recoveries[q].inode == i);
              (Enabled(s, LockFile(r)) <==> !held) && (Enabled(s, Retain(r)) <==> held)
  {
    OneHolderRun(hash, s0, es);
  }

  /** A put that fails on the way removes its staging file and changes nothing else. */
  lemma FailedPutExactly(hash: Bytes -> Hash, s: Store, p: Pid)
    requires p in s.puts
    requires var f := s.puts[p].phase; f.Opened? || f.Writing? || f.Linking? || f.Verifying?
    ensures Legal(hash, s, [Fail(p), Clean(p)])
    ensures Final(hash, s, [Fail(p), Clean(p)])
            == s.(names := s.names - {Staging(s.puts[p].phase.uuid)},
                  puts := s.puts[p := s.puts[p].(phase := Done(Failed))])
  {
    var s1 := Apply(hash, s, Fail(p));
    RunCons(hash, s1, [Clean(p)], Apply(hash, s1, Clean(p)));
    RunCons(hash, s, [Fail(p), Clean(p)], s1);
  }

  /** A crash leaves the staging file but not its lock: whoever crashed, the writer or a pass that
      held the lock, the next pass removes the file, and changes neither what is published nor
      any other put. */
  lemma CrashedWritersAreCollected(hash: Bytes -> Hash, s: Store, dead: Pid, r: Pid, name: Name)
    requires Tracked(s) && OneHolder(s) && name.Staging? && name in s.names && r !in s.recoveries
    requires || (dead in s.puts && s.puts[dead].phase.Writing? && s.puts[dead].phase.inode == s.names[name])
             || (dead in s.recoveries && s.recoveries[dead].Locked? && s.recoveries[dead].inode == s.names[name])
    ensures var crash := if dead in s.puts && s.puts[dead].phase.Writing? && s.puts[dead].phase.inode == s.names[name]
                         then Crash(dead) else CrashRecovery(dead);
            var pass := [BeginRecovery(r), Visit(r, name), LockFile(r), Unlock(r), Remove(r)];
            && Legal(hash, s, [crash] + pass)
            && Final(hash, s, [crash] + pass).names == s.names - {name}
            && Final(hash, s, [crash] + pass).inodes == s.inodes
            && Final(hash, s, [crash] + pass).puts == (if crash.Crash? then s.puts - {dead} else s.puts)
  {
    var writer := dead in s.puts && s.puts[dead].phase.Writing? && s.puts[dead].phase.inode == s.names[name];
    var crash := if writer then Crash(dead) else CrashRecovery(dead);
    var s1 := Apply(hash, s, crash);
    CrashUnlocks(hash, s, dead, name);
    PassCollects(hash, s1, r, name);
    var pass := [BeginRecovery(r), Visit(r, name), LockFile(r), Unlock(r), Remove(r)];
    assert ([crash] + pass)[1..] == pass;
    RunCons(hash, s, [crash] + pass, s1);
  }

  lemma CrashUnlocks(hash: Bytes -> Hash, s: Store, dead: Pid, name: Name)
    requires OneHolder(s) && name in s.names
    requires || (dead in s.puts && s.puts[dead].phase.Writing? && s.puts[dead].phase.inode == s.names[name])
             || (dead in s.recoveries && s.recoveries[dead].Locked? && s.recoveries[dead].inode == s.names[name])
    ensures var writer := dead in s.puts && s.puts[dead].phase.Writing? && s.puts[dead].phase.inode == s.names[name];
            var crash := if writer then Crash(dead) else CrashRecovery(dead);
            Enabled(s, crash) && !IsLocked(Apply(hash, s, crash), s.names[name])
  {
  }

  // ------------------------------------------------------------------- a put left alone

  ghost predicate Fresh(s: Store, p: Pid, u: nat, i: Inode) {
    p !in s.pids && u !in s.uuids && i !in s.inodes
  }

  /** The source offers exactly these bytes. */
  predicate Offers(source: Source, bytes: Bytes) {
    source == Known(bytes) || source == Streamed(|bytes|)
  }

  /** The state of a put that staged `bytes` in the file u, i, in the given phase. */
  function With(s: Store, p: Pid, source: Source, bytes: Bytes, u: nat, i: Inode, f: Phase): Store {
    s.(names := s.names[Staging(u) := i], inodes := s.inodes[i := bytes],
       puts := s.puts[p := Put(source, bytes, f)], uuids := s.uuids + {u}, pids := s.pids + {p})
  }

  lemma Begins(hash: Bytes -> Hash, s: Store, p: Pid, source: Source)
    requires p !in s.pids
    requires source.Known? ==> Published(hash(source.bytes)) !in s.names
    ensures var es := [BeginPut(p, source)] + (if source.Known? then [Check(p)] else []);
            && Legal(hash, s, es)
            && Final(hash, s, es) == s.(puts := s.puts[p := Put(source, [], Creating)], pids := s.pids + {p})
  {
    var s1 := Apply(hash, s, BeginPut(p, source));
    if source.Known? {
      RunCons(hash, s1, [Check(p)], Apply(hash, s1, Check(p)));
      RunCons(hash, s, [BeginPut(p, source), Check(p)], s1);
      assert Final(hash, s, [BeginPut(p, source), Check(p)]).puts == s.puts[p := Put(source, [], Creating)];
    } else {
      RunCons(hash, s, [BeginPut(p, source)], s1);
    }
  }

  lemma Locks(hash: Bytes -> Hash, s: Store, s1: Store, p: Pid, source: Source, u: nat, i: Inode)
    requires Tracked(s) && Fresh(s, p, u, i)
    requires s1 == s.(puts := s.puts[p := Put(source, [], Creating)], pids := s.pids + {p})
    ensures Legal(hash, s1, [Create(p, u, i), Lock(p)])
    ensures Final(hash, s1, [Create(p, u, i), Lock(p)]) == With(s, p, source, [], u, i, Writing(u, i))
  {
    var s2 := Apply(hash, s1, Create(p, u, i));
    assert s2.puts[p].phase == Opened(u, i);
    forall q | q in s2.puts && s2.puts[q].phase.Writing? ensures s2.puts[q].phase.inode != i {
      assert q != p && Staged(s, q);
    }
    assert !IsLocked(s2, i);
    var s3 := Apply(hash, s2, Lock(p));
    RunCons(hash, s2, [Lock(p)], s3);
    RunCons(hash, s1, [Create(p, u, i), Lock(p)], s2);
    assert s3.puts == s.puts[p := Put(source, [], Writing(u, i))];
  }

  lemma Writes(hash: Bytes -> Hash, s: Store, p: Pid, source: Source, bytes: Bytes, u: nat, i: Inode)
    requires Offers(source, bytes)
    ensures var s3 := With(s, p, source, [], u, i, Writing(u, i));
            && Legal(hash, s3, [Write(p, bytes), Finish(p)])
            && Final(hash, s3, [Write(p, bytes), Finish(p)]) == With(s, p, source, bytes, u, i, Linking(u, i))
  {
    var s3 := With(s, p, source, [], u, i, Writing(u, i));
    assert [] + bytes == bytes;
    var s4 := Apply(hash, s3, Write(p, bytes));
    assert s4 == With(s, p, source, bytes, u, i, Writing(u, i)) by {
      assert s4.puts == s.puts[p := Put(source, bytes, Writing(u, i))];
      assert s4.inodes == s.inodes[i := bytes];
    }
    var s5 := Apply(hash, s4, Finish(p));
    RunCons(hash, s4, [Finish(p)], s5);
    RunCons(hash, s3, [Write(p, bytes), Finish(p)], s4);
    assert s5.puts == s.puts[p := Put(source, bytes, Linking(u, i))];
  }

  /** The staged bytes become the published file, if there is none. */
  lemma Links(hash: Bytes -> Hash, s: Store, p: Pid, source: Source, bytes: Bytes, u: nat, i: Inode)
    requires Staging(u) !in s.names && Published(hash(bytes)) !in s.names
    ensures var s5 := With(s, p, source, bytes, u, i, Linking(u, i));
            && Legal(hash, s5, [Link(p), Clean(p)])
            && Final(hash, s5, [Link(p), Clean(p)])
               == s.(names := s.names[Published(hash(bytes)) := i], inodes := s.inodes[i := bytes],
                     puts := s.puts[p := Put(source, bytes, Done(Created))],
                     uuids := s.uuids + {u}, pids := s.pids + {p}, links := s.links + [(p, hash(bytes))])
  {
    var s5 := With(s, p, source, bytes, u, i, Linking(u, i));
    var s6 := Apply(hash, s5, Link(p));
    var s7 := Apply(hash, s6, Clean(p));
    RunCons(hash, s6, [Clean(p)], s7);
    RunCons(hash, s5, [Link(p), Clean(p)], s6);
    assert s7.puts == s.puts[p := Put(source, bytes, Done(Created))];
    assert s7.names == s.names[Published(hash(bytes)) := i];
  }

  lemma FindsTheName(hash: Bytes -> Hash, s: Store, p: Pid, source: Source, bytes: Bytes, u: nat, i: Inode)
    requires Published(hash(bytes)) in s.names
    ensures var s5 := With(s, p, source, bytes, u, i, Linking(u, i));
            Enabled(s5, Link(p)) && Apply(hash, s5, Link(p)) == With(s, p, source, bytes, u, i, Verifying(u))
  {
    var s5 := With(s, p, source, bytes, u, i, Linking(u, i));
    assert Apply(hash, s5, Link(p)).puts == s.puts[p := Put(source, bytes, Verifying(u))];
  }

  lemma ChecksTheFile(hash: Bytes -> Hash, s: Store, p: Pid, source: Source, bytes: Bytes, u: nat, i: Inode, o: Outcome)
    requires Private(s) && i !in s.inodes && Published(hash(bytes)) in s.names
    requires var file := s.inodes[s.names[Published(hash(bytes))]];
             o == if |file| == |bytes| && hash(file) == hash(bytes) then Existed else Failed
    ensures var s6 := With(s, p, source, bytes, u, i, Verifying(u));
            Enabled(s6, Verify(p)) && Apply(hash, s6, Verify(p)) == With(s, p, source, bytes, u, i, Cleaning(u, o))
  {
    var s6 := With(s, p, source, bytes, u, i, Verifying(u));
    assert Apply(hash, s6, Verify(p)).puts == s.puts[p := Put(source, bytes, Cleaning(u, o))];
  }

  lemma CleansUp(hash: Bytes -> Hash, s: Store, p: Pid, source: Source, bytes: Bytes, u: nat, i: Inode, o: Outcome)
    requires Staging(u) !in s.names
    ensures var s7 := With(s, p, source, bytes, u, i, Cleaning(u, o));
            && Enabled(s7, Clean(p))
            && Apply(hash, s7, Clean(p))
               == s.(inodes := s.inodes[i := bytes], puts := s.puts[p := Put(source, bytes, Done(o))],
                     uuids := s.uuids + {u}, pids := s.pids + {p})
  {
    var s8 := Apply(hash, With(s, p, source, bytes, u, i, Cleaning(u, o)), Clean(p));
    assert s8.puts == s.puts[p := Put(source, bytes, Done(o))] && s8.names == s.names;
  }

  /** A stream whose file is already published checks that file and removes its own. */
  lemma Yields(hash: Bytes -> Hash, s: Store, p: Pid, source: Source, bytes: Bytes, u: nat, i: Inode, o: Outcome)
    requires Private(s) && i !in s.inodes && Staging(u) !in s.names && Published(hash(bytes)) in s.names
    requires var file := s.inodes[s.names[Published(hash(bytes))]];
             o == if |file| == |bytes| && hash(file) == hash(bytes) then Existed else Failed
    ensures var s5 := With(s, p, source, bytes, u, i, Linking(u, i));
            && Legal(hash, s5, [Link(p), Verify(p), Clean(p)])
            && Final(hash, s5, [Link(p), Verify(p), Clean(p)])
               == s.(inodes := s.inodes[i := bytes], puts := s.puts[p := Put(source, bytes, Done(o))],
                     uuids := s.uuids + {u}, pids := s.pids + {p})
  {
    FindsTheName(hash, s, p, source, bytes, u, i);
    ChecksTheFile(hash, s, p, source, bytes, u, i, o);
    CleansUp(hash, s, p, source, bytes, u, i, o);
    var s7 := With(s, p, source, bytes, u, i, Cleaning(u, o));
    RunCons(hash, s7, [Clean(p)], Apply(hash, s7, Clean(p)));
    RunCons(hash, With(s, p, source, bytes, u, i, Verifying(u)), [Verify(p), Clean(p)], s7);
    RunCons(hash, With(s, p, source, bytes, u, i, Linking(u, i)), [Link(p), Verify(p), Clean(p)],
            With(s, p, source, bytes, u, i, Verifying(u)));
  }

  function StagingEvents(p: Pid, source: Source, bytes: Bytes, u: nat, i: Inode): seq<Event> {
    [BeginPut(p, source)] + (if source.Known? then [Check(p)] else [])
    + [Create(p, u, i), Lock(p)] + [Write(p, bytes), Finish(p)]
  }

  lemma StagesBytes(hash: Bytes -> Hash, s: Store, p: Pid, source: Source, bytes: Bytes, u: nat, i: Inode)
    requires Tracked(s) && Fresh(s, p, u, i) && Offers(source, bytes)
    requires source.Known? ==> Published(hash(bytes)) !in s.names
    ensures Legal(hash, s, StagingEvents(p, source, bytes, u, i))
    ensures Final(hash, s, StagingEvents(p, source, bytes, u, i)) == With(s, p, source, bytes, u, i, Linking(u, i))
  {
    Begins(hash, s, p, source);
    var begin := [BeginPut(p, source)] + (if source.Known? then [Check(p)] else []);
    Locks(hash, s, Final(hash, s, begin), p, source, u, i);
    RunsConcatenate(hash, s, begin, [Create(p, u, i), Lock(p)]);
    Writes(hash, s, p, source, bytes, u, i);
    RunsConcatenate(hash, s, begin + [Create(p, u, i), Lock(p)], [Write(p, bytes), Finish(p)]);
  }

  /** Bytes that are not published yet: a put left alone can always take its steps, reports
      that it created the file, and changes nothing else but its own new entry. */
  lemma PutOfNewBytesExactly(hash: Bytes -> Hash, s: Store, p: Pid, source: Source, bytes: Bytes, u: nat, i: Inode)
    requires Tracked(s) && p !in s.pids && u !in s.uuids && i !in s.inodes
    requires (source == Known(bytes) || source == Streamed(|bytes|)) && Published(hash(bytes)) !in s.names
    ensures var es := [BeginPut(p, source)] + (if source.Known? then [Check(p)] else [])
                      + [Create(p, u, i), Lock(p)] + [Write(p, bytes), Finish(p)] + [Link(p), Clean(p)];
            && Legal(hash, s, es)
            && Final(hash, s, es)
               == s.(names := s.names[Published(hash(bytes)) := i], inodes := s.inodes[i := bytes],
                     puts := s.puts[p := Put(source, bytes, Done(Created))],
                     uuids := s.uuids + {u}, pids := s.pids + {p}, links := s.links + [(p, hash(bytes))])
  {
    StagesBytes(hash, s, p, source, bytes, u, i);
    Links(hash, s, p, source, bytes, u, i);
    RunsConcatenate(hash, s, StagingEvents(p, source, bytes, u, i), [Link(p), Clean(p)]);
  }

  /** Bytes whose name is taken: a put left alone ends with Existed exactly when the file there
      has their length and their hash, else it fails; the directory is as it was. */
  lemma PutOfPublishedBytesExactly(hash: Bytes -> Hash, s: Store, p: Pid, source: Source, bytes: Bytes,
                                   u: nat, i: Inode)
    requires Tracked(s) && p !in s.pids && u !in s.uuids && i !in s.inodes
    requires (source == Known(bytes) || source == Streamed(|bytes|)) && Published(hash(bytes)) in s.names
    ensures var es := if source.Known? then [BeginPut(p, source), Check(p)]
                      else [BeginPut(p, source)] + [Create(p, u, i), Lock(p)] + [Write(p, bytes), Finish(p)]
                           + [Link(p), Verify(p), Clean(p)];
            var file := s.inodes[s.names[Published(hash(bytes))]];
            var o := if |file| == |bytes| && hash(file) == hash(bytes) then Existed else Failed;
            && Legal(hash, s, es)
            && Final(hash, s, es).names == s.names && Final(hash, s, es).links == s.links
            && Final(hash, s, es).puts == s.puts[p := Put(source, bytes, Done(o))]
            && Final(hash, s, es).inodes == (if source.Known? then s.inodes else s.inodes[i := bytes])
            && Final(hash, s, es).recoveries == s.recoveries
  {
    if source.Known? {
      var s1 := Apply(hash, s, BeginPut(p, source));
      RunCons(hash, s1, [Check(p)], Apply(hash, s1, Check(p)));
      RunCons(hash, s, [BeginPut(p, source), Check(p)], s1);
    } else {
      var file := s.inodes[s.names[Published(hash(bytes))]];
      var o := if |file| == |bytes| && hash(file) == hash(bytes) then Existed else Failed;
      StagesBytes(hash, s, p, source, bytes, u, i);
      Yields(hash, s, p, source, bytes, u, i, o);
      var staged := [BeginPut(p, source)] + [Create(p, u, i), Lock(p)] + [Write(p, bytes), Finish(p)];
      assert StagingEvents(p, source, bytes, u, i) == staged;
      RunsConcatenate(hash, s, staged, [Link(p), Verify(p), Clean(p)]);
    }
  }
}
