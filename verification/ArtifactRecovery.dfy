/** What recovery can do to a live put.  The documented promise is that the writer's lock
    keeps recovery from removing another live writer's staging file; here is exactly when it
    does. */
module ArtifactRecovery {
  import opened ArtifactStore

  // ---------------------------------------------------------------- who holds which name

  predicate HasName(f: Phase) {
    f.Opened? || f.Writing? || f.Linking? || f.Verifying? || f.Cleaning?
  }

  /** No two puts stage under one name, and every name was drawn. */
  ghost predicate OwnNames(s: Store) {
    && (forall p :: p in s.puts && HasName(s.puts[p].phase) ==> s.puts[p].phase.uuid in s.uuids)
    && (forall p, q :: p in s.puts && q in s.puts && p != q && HasName(s.puts[p].phase) && HasName(s.puts[q].phase) ==>
          s.puts[p].phase.uuid != s.puts[q].phase.uuid)
  }

  predicate Opens(v: Recovery) {
    v.Visiting? || v.Locked?
  }

  /** The file a recovery pass has open is the one its name has, if it still has one. */
  ghost predicate OpensRight(s: Store, v: Recovery)
    requires Opens(v)
  {
    && v.name.Staging? && v.name.uuid in s.uuids && v.inode in s.inodes
    && (v.name in s.names ==> s.names[v.name] == v.inode)
    && (forall p :: p in s.puts && Stages(s.puts[p].phase) && s.puts[p].phase.inode == v.inode ==>
          v.name == Staging(s.puts[p].phase.uuid))
  }

  ghost predicate RightFiles(s: Store) {
    forall r :: r in s.recoveries && Opens(s.recoveries[r]) ==> OpensRight(s, s.recoveries[r])
  }

  ghost predicate Tracked(s: Store) {
    Private(s) && OwnNames(s) && RightFiles(s)
  }

  /** Only p changes, and only onwards under its own name. */
  ghost predicate MovesOn(s: Store, s': Store, p: Pid) {
    && (forall q :: q in s'.puts && q != p ==> q in s.puts && s'.puts[q] == s.puts[q])
    && (p in s'.puts && HasName(s'.puts[p].phase) ==>
          && p in s.puts && HasName(s.puts[p].phase) && s'.puts[p].phase.uuid == s.puts[p].phase.uuid
          && (Stages(s'.puts[p].phase) ==>
                Stages(s.puts[p].phase) && s'.puts[p].phase.inode == s.puts[p].phase.inode))
  }

  lemma PutMovesOn(hash: Bytes -> Hash, s: Store, e: Event)
    requires Enabled(s, e) && !IsRecovery(e) && !e.Create?
    ensures MovesOn(s, Apply(hash, s, e), e.pid)
    ensures Apply(hash, s, e).uuids == s.uuids && Apply(hash, s, e).inodes.Keys >= s.inodes.Keys
  {
  }

  lemma MovingKeepsOwnNames(s: Store, s': Store, p: Pid)
    requires OwnNames(s) && MovesOn(s, s', p) && s'.uuids == s.uuids
    ensures OwnNames(s')
  {
  }

  lemma CreatingKeepsOwnNames(hash: Bytes -> Hash, s: Store, p: Pid, u: nat, i: Inode)
    requires OwnNames(s) && Enabled(s, Create(p, u, i))
    ensures OwnNames(Apply(hash, s, Create(p, u, i)))
  {
  }

  lemma OwnNamesStep(hash: Bytes -> Hash, s: Store, e: Event)
    requires OwnNames(s) && Enabled(s, e)
    ensures OwnNames(Apply(hash, s, e))
  {
    if e.Create? {
      CreatingKeepsOwnNames(hash, s, e.pid, e.uuid, e.inode);
    } else if IsRecovery(e) {
      assert Apply(hash, s, e).puts == s.puts && Apply(hash, s, e).uuids == s.uuids;
    } else {
      PutMovesOn(hash, s, e);
      MovingKeepsOwnNames(s, Apply(hash, s, e), e.pid);
    }
  }

  /** A drawn staging name that is gone does not come back, and one that is there keeps its inode. */
  lemma DrawnNameStep(hash: Bytes -> Hash, s: Store, e: Event, name: Name)
    requires Enabled(s, e) && name.Staging? && name.uuid in s.uuids
    ensures name in Apply(hash, s, e).names ==> name in s.names && Apply(hash, s, e).names[name] == s.names[name]
  {
  }

  /** A step of a put leaves every open file right. */
  lemma RightFilesPutStep(hash: Bytes -> Hash, s: Store, e: Event, r: Pid)
    requires Tracked(s) && Enabled(s, e) && !IsRecovery(e)
    requires r in s.recoveries && Opens(s.recoveries[r])
    ensures OpensRight(Apply(hash, s, e), s.recoveries[r])
  {
    assert OpensRight(s, s.recoveries[r]);
    DrawnNameStep(hash, s, e, s.recoveries[r].name);
    if e.Create? {
      assert s.recoveries[r].inode != e.inode;
    } else {
      PutMovesOn(hash, s, e);
    }
  }

  lemma RightFilesRecoveryStep(hash: Bytes -> Hash, s: Store, e: Event, r: Pid)
    requires Tracked(s) && Enabled(s, e) && IsRecovery(e)
    requires r in Apply(hash, s, e).recoveries && Opens(Apply(hash, s, e).recoveries[r])
    ensures OpensRight(Apply(hash, s, e), Apply(hash, s, e).recoveries[r])
  {
    var v := Apply(hash, s, e).recoveries[r];
    if e.Visit? && e.pid == r {
      forall p | p in s.puts && Stages(s.puts[p].phase) && s.puts[p].phase.inode == v.inode
        ensures v.name == Staging(s.puts[p].phase.uuid)
      {
        assert Staged(s, p);
      }
    } else {
      assert OpensRight(s, s.recoveries[r]);
    }
  }

  lemma TrackedStep(hash: Bytes -> Hash, s: Store, e: Event)
    requires Tracked(s) && Enabled(s, e)
    ensures Tracked(Apply(hash, s, e))
  {
    var s' := Apply(hash, s, e);
    PrivateStep(hash, s, e);
    OwnNamesStep(hash, s, e);
    forall r | r in s'.recoveries && Opens(s'.recoveries[r]) ensures OpensRight(s', s'.recoveries[r]) {
      if IsRecovery(e) {
        RightFilesRecoveryStep(hash, s, e, r);
      } else {
        assert s'.recoveries == s.recoveries;
        RightFilesPutStep(hash, s, e, r);
      }
    }
  }

  lemma {:induction false} TrackedRun(hash: Bytes -> Hash, s: Store, es: seq<Event>)
    requires Tracked(s) && Legal(hash, s, es)
    ensures Tracked(Final(hash, s, es))
    decreases |es|
  {
    if es != [] {
      TrackedStep(hash, s, es[0]);
      TrackedRun(hash, Apply(hash, s, es[0]), es[1..]);
    }
  }

  // ---------------------------------------------------------------- when the lock protects

  predicate IsRecovery(e: Event) {
    e.BeginRecovery? || e.Visit? || e.LockFile? || e.Unlock? || e.Remove? || e.Retain? || e.CrashRecovery?
  }

  predicate RecoveryOnly(es: seq<Event>) {
    forall i :: 0 <= i < |es| ==> IsRecovery(es[i])
  }

  function StagingName(s: Store, p: Pid): Name
    requires p in s.puts && Stages(s.puts[p].phase)
  {
    Staging(s.puts[p].phase.uuid)
  }

  /** The put holds its lock, and no recovery pass got past the lock before it. */
  ghost predicate Guarded(s: Store, p: Pid) {
    && p in s.puts && s.puts[p].phase.Writing? && StagingName(s, p) in s.names
    && forall r :: r in s.recoveries && (s.recoveries[r].Locked? || s.recoveries[r].Removing?) ==>
         s.recoveries[r].name != StagingName(s, p)
  }

  lemma OthersKeepTheirs(hash: Bytes -> Hash, s: Store, e: Event, q: Pid)
    requires Enabled(s, e) && q in s.puts && (IsRecovery(e) || e.pid != q)
    ensures q in Apply(hash, s, e).puts && Apply(hash, s, e).puts[q] == s.puts[q]
    ensures !IsRecovery(e) ==> Apply(hash, s, e).recoveries == s.recoveries
  {
  }

  /** No other put's step takes a name that p stages under. */
  lemma NameStays(hash: Bytes -> Hash, s: Store, e: Event, p: Pid)
    requires OwnNames(s) && p in s.puts && Stages(s.puts[p].phase) && StagingName(s, p) in s.names
    requires Enabled(s, e) && !IsRecovery(e)
    ensures StagingName(s, p) in Apply(hash, s, e).names
  {
    if e.Clean? {
      assert e.pid != p;
    }
  }

  /** While the put writes, no step of anybody removes its file or gets past its lock. */
  lemma GuardedPutStep(hash: Bytes -> Hash, s: Store, e: Event, p: Pid)
    requires OwnNames(s) && Guarded(s, p) && Enabled(s, e) && !IsRecovery(e)
    requires p in Apply(hash, s, e).puts && Apply(hash, s, e).puts[p].phase.Writing?
    ensures Guarded(Apply(hash, s, e), p) && Apply(hash, s, e).puts[p].phase == s.puts[p].phase
  {
    NameStays(hash, s, e, p);
    if e.pid != p {
      OthersKeepTheirs(hash, s, e, p);
    }
  }

  /** A pass that has the file open but not locked cannot lock it. */
  lemma LockedOut(s: Store, p: Pid, r: Pid)
    requires Tracked(s) && Guarded(s, p)
    requires r in s.recoveries && s.recoveries[r].Visiting? && s.recoveries[r].name == StagingName(s, p)
    ensures IsLocked(s, s.recoveries[r].inode)
  {
    assert Staged(s, p) && OpensRight(s, s.recoveries[r]);
  }

  lemma GuardedRecoveryStep(hash: Bytes -> Hash, s: Store, e: Event, p: Pid)
    requires Tracked(s) && Guarded(s, p) && Enabled(s, e) && IsRecovery(e)
    ensures Guarded(Apply(hash, s, e), p) && Apply(hash, s, e).puts == s.puts
  {
    forall r | r in s.recoveries && s.recoveries[r].Visiting? && s.recoveries[r].name == StagingName(s, p)
      ensures IsLocked(s, s.recoveries[r].inode)
    {
      LockedOut(s, p, r);
    }
  }

  /** The put is writing in every state of the run. */
  ghost predicate KeepsWriting(hash: Bytes -> Hash, s: Store, es: seq<Event>, p: Pid)
    requires Legal(hash, s, es)
    decreases |es|
  {
    && p in s.puts && s.puts[p].phase.Writing?
    && (es == [] || KeepsWriting(hash, Apply(hash, s, es[0]), es[1..], p))
  }

  /** A guarded staging file outlasts every run over which its put keeps writing: other puts,
      crashes and any number of recovery passes included. */
  lemma {:induction false} GuardLasts(hash: Bytes -> Hash, s: Store, es: seq<Event>, p: Pid)
    requires Tracked(s) && Guarded(s, p) && Legal(hash, s, es) && KeepsWriting(hash, s, es, p)
    ensures Guarded(Final(hash, s, es), p) && Final(hash, s, es).puts[p].phase == s.puts[p].phase
    decreases |es|
  {
    if es != [] {
      TrackedStep(hash, s, es[0]);
      if IsRecovery(es[0]) {
        GuardedRecoveryStep(hash, s, es[0], p);
      } else {
        GuardedPutStep(hash, s, es[0], p);
      }
      GuardLasts(hash, Apply(hash, s, es[0]), es[1..], p);
    }
  }

  lemma {:induction false} RecoveryLeavesPuts(hash: Bytes -> Hash, s: Store, es: seq<Event>, p: Pid)
    requires RecoveryOnly(es) && Legal(hash, s, es) && p in s.puts && s.puts[p].phase.Writing?
    ensures KeepsWriting(hash, s, es, p)
    decreases |es|
  {
    if es != [] {
      assert IsRecovery(es[0]) && Apply(hash, s, es[0]).puts == s.puts;
      RecoveryLeavesPuts(hash, Apply(hash, s, es[0]), es[1..], p);
    }
  }

  // ---------------------------------------------------------------- when it does not

  /** Some run of recovery passes alone removes the name. */
  ghost predicate CanLose(hash: Bytes -> Hash, s: Store, name: Name) {
    exists es :: RecoveryOnly(es) && Legal(hash, s, es) && name !in Final(hash, s, es).names
  }

  lemma LoseFirst(hash: Bytes -> Hash, s: Store, e: Event, name: Name)
    requires Enabled(s, e) && IsRecovery(e) && CanLose(hash, Apply(hash, s, e), name)
    ensures CanLose(hash, s, name)
  {
    var rest :| RecoveryOnly(rest) && Legal(hash, Apply(hash, s, e), rest)
        && name !in Final(hash, Apply(hash, s, e), rest).names;
    var es := [e] + rest;
    assert es[1..] == rest;
    assert Legal(hash, s, es) && Final(hash, s, es) == Final(hash, Apply(hash, s, e), rest);
  }

  lemma Lost(hash: Bytes -> Hash, s: Store, name: Name)
    requires name !in s.names
    ensures CanLose(hash, s, name)
  {
    assert RecoveryOnly([]) && Legal(hash, s, []) && name !in Final(hash, s, []).names;
  }

  /** Past the lock: a pass that holds the file's lock, or let go of it, removes the name. */
  lemma PastTheLock(hash: Bytes -> Hash, s: Store, r: Pid, name: Name)
    requires r in s.recoveries && (s.recoveries[r].Locked? || s.recoveries[r].Removing?) && s.recoveries[r].name == name
    ensures CanLose(hash, s, name)
  {
    var t := if s.recoveries[r].Locked? then Apply(hash, s, Unlock(r)) else s;
    Lost(hash, Apply(hash, t, Remove(r)), name);
    LoseFirst(hash, t, Remove(r), name);
    if s.recoveries[r].Locked? {
      LoseFirst(hash, s, Unlock(r), name);
    }
  }

  /** An unlocked staging file: a pass that starts now removes it. */
  lemma UnlockedIsLost(hash: Bytes -> Hash, s: Store, r: Pid, name: Name)
    requires name.Staging? && name in s.names && r !in s.recoveries && !IsLocked(s, s.names[name])
    ensures CanLose(hash, s, name)
  {
    PassRemoves(hash, s, r, name);
    var s1 := Apply(hash, s, BeginRecovery(r));
    var s2 := Apply(hash, s1, Visit(r, name));
    PastTheLock(hash, Apply(hash, s2, LockFile(r)), r, name);
    LoseFirst(hash, s2, LockFile(r), name);
    LoseFirst(hash, s1, Visit(r, name), name);
    LoseFirst(hash, s, BeginRecovery(r), name);
  }

  lemma {:induction false} FreshPid(pids: set<Pid>) returns (r: Pid)
    ensures forall p :: p in pids ==> p < r
  {
    r := 0;
    if pids != {} {
      var q :| q in pids;
      var above := FreshPid(pids - {q});
      r := if q < above then above else q + 1;
      assert forall p :: p in pids ==> p == q || p in pids - {q};
    }
  }

  /** A put that is not writing has its staging file locked by nobody but recovery passes that
      have it open under its name. */
  lemma OnlyItsOwnLock(s: Store, p: Pid)
    requires Tracked(s) && p in s.puts && Stages(s.puts[p].phase) && !s.puts[p].phase.Writing?
    requires forall r :: r in s.recoveries && s.recoveries[r].Locked? ==> s.recoveries[r].name != StagingName(s, p)
    ensures !IsLocked(s, s.puts[p].phase.inode)
  {
    var i := s.puts[p].phase.inode;
    forall r | r in s.recoveries && s.recoveries[r].Locked? ensures s.recoveries[r].inode != i {
      assert OpensRight(s, s.recoveries[r]);
    }
  }

  lemma UnguardedIsLost(hash: Bytes -> Hash, s: Store, p: Pid)
    requires Tracked(s) && p in s.puts && Stages(s.puts[p].phase) && StagingName(s, p) in s.names && !Guarded(s, p)
    ensures CanLose(hash, s, StagingName(s, p))
  {
    var name := StagingName(s, p);
    if r :| r in s.recoveries && (s.recoveries[r].Locked? || s.recoveries[r].Removing?)
            && s.recoveries[r].name == name {
      PastTheLock(hash, s, r, name);
    } else {
      var r := FreshPid(s.recoveries.Keys);
      assert Staged(s, p);
      OnlyItsOwnLock(s, p);
      UnlockedIsLost(hash, s, r, name);
    }
  }

  lemma GuardedIsKept(hash: Bytes -> Hash, s: Store, p: Pid)
    requires Tracked(s) && Guarded(s, p)
    ensures !CanLose(hash, s, StagingName(s, p))
  {
    forall es | RecoveryOnly(es) && Legal(hash, s, es) ensures StagingName(s, p) in Final(hash, s, es).names {
      RecoveryLeavesPuts(hash, s, es, p);
      GuardLasts(hash, s, es, p);
    }
  }

  /** The exact condition.  In every state reachable from a directory as found, recovery can
      remove a live put's staging file unless the put is writing, and so holds its lock, and no
      pass took the lock on that file before it and is still to remove it.  The windows are
      from create to lock, from a pass's unlock to its removal, and from the end of writing to
      the link. */
  lemma RecoveryCanLoseExactlyTheUnguarded(hash: Bytes -> Hash, born: set<Hash>, s0: Store, es: seq<Event>, p: Pid)
    requires Found(hash, born, s0) && Legal(hash, s0, es)
    requires var s := Final(hash, s0, es); p in s.puts && Stages(s.puts[p].phase) && StagingName(s, p) in s.names
    ensures var s := Final(hash, s0, es); CanLose(hash, s, StagingName(s, p)) <==> !Guarded(s, p)
  {
    var s := Final(hash, s0, es);
    TrackedRun(hash, s0, es);
    if Guarded(s, p) {
      GuardedIsKept(hash, s, p);
    } else {
      UnguardedIsLost(hash, s, p);
    }
  }

  // ---------------------------------------------------------------- what a lost file means

  /** The put has lost its staging file before its link, or failed, or is gone. */
  predicate Doomed(s: Store, p: Pid) {
    p in s.puts ==>
      && (Stages(s.puts[p].phase) ==> Staging(s.puts[p].phase.uuid) !in s.names)
      && !s.puts[p].phase.Checking? && !s.puts[p].phase.Creating? && !s.puts[p].phase.Verifying?
      && (s.puts[p].phase.Cleaning? || s.puts[p].phase.Done? ==> s.puts[p].phase.outcome == Failed)
  }

  lemma DoomedByOwnStep(hash: Bytes -> Hash, s: Store, e: Event)
    requires Enabled(s, e) && !IsRecovery(e) && e.pid in s.pids && Doomed(s, e.pid)
    ensures e.pid in Apply(hash, s, e).pids && Doomed(Apply(hash, s, e), e.pid)
  {
  }

  lemma StaysAway(hash: Bytes -> Hash, s: Store, e: Event, p: Pid)
    requires Enabled(s, e) && p in s.pids && p !in s.puts
    ensures p in Apply(hash, s, e).pids && p !in Apply(hash, s, e).puts
  {
  }

  lemma DoomedStep(hash: Bytes -> Hash, s: Store, e: Event, p: Pid)
    requires OwnNames(s) && p in s.pids && Doomed(s, p) && Enabled(s, e)
    ensures p in Apply(hash, s, e).pids && Doomed(Apply(hash, s, e), p)
  {
    if !IsRecovery(e) && e.pid == p {
      DoomedByOwnStep(hash, s, e);
    } else if p !in s.puts {
      StaysAway(hash, s, e, p);
    } else {
      OthersKeepTheirs(hash, s, e, p);
      if Stages(s.puts[p].phase) {
        DrawnNameStep(hash, s, e, StagingName(s, p));
      }
    }
  }

  /** A put that lost its staging file never succeeds: in every continuation it reports
      failure, has not ended, or crashed. */
  lemma {:induction false} LosingTheFileDefeatsThePut(hash: Bytes -> Hash, s: Store, es: seq<Event>, p: Pid)
    requires Tracked(s) && p in s.pids && Doomed(s, p) && Legal(hash, s, es)
    ensures Doomed(Final(hash, s, es), p)
    decreases |es|
  {
    if es != [] {
      TrackedStep(hash, s, es[0]);
      DoomedStep(hash, s, es[0], p);
      LosingTheFileDefeatsThePut(hash, Apply(hash, s, es[0]), es[1..], p);
    }
  }

  lemma {:induction false} RecoveryKeepsPuts(hash: Bytes -> Hash, s: Store, es: seq<Event>)
    requires RecoveryOnly(es) && Legal(hash, s, es)
    ensures Final(hash, s, es).puts == s.puts
    decreases |es|
  {
    if es != [] {
      assert IsRecovery(es[0]) && Apply(hash, s, es[0]).puts == s.puts;
      RecoveryKeepsPuts(hash, Apply(hash, s, es[0]), es[1..]);
    }
  }

  /** So wherever recovery can remove the file it can defeat the put. */
  lemma LosableIsDefeatable(hash: Bytes -> Hash, s: Store, p: Pid)
    requires p in s.puts && Stages(s.puts[p].phase) && CanLose(hash, s, StagingName(s, p))
    ensures exists es :: RecoveryOnly(es) && Legal(hash, s, es) && Doomed(Final(hash, s, es), p)
  {
    var es :| RecoveryOnly(es) && Legal(hash, s, es) && StagingName(s, p) !in Final(hash, s, es).names;
    RecoveryKeepsPuts(hash, s, es);
    assert Doomed(Final(hash, s, es), p);
  }

  // ---------------------------------------------------------------- the windows are reachable

  const EMPTY := Store(map[], map[], map[], map[], {}, {}, [])

  lemma {:induction false} RunsConcatenate(hash: Bytes -> Hash, s: Store, es: seq<Event>, more: seq<Event>)
    requires Legal(hash, s, es) && Legal(hash, Final(hash, s, es), more)
    ensures Legal(hash, s, es + more) && Final(hash, s, es + more) == Final(hash, Final(hash, s, es), more)
    decreases |es|
  {
    if es == [] {
      assert es + more == more;
    } else {
      assert (es + more)[0] == es[0] && (es + more)[1..] == es[1..] + more;
      RunsConcatenate(hash, Apply(hash, s, es[0]), es[1..], more);
    }
  }

  lemma OneEvent(hash: Bytes -> Hash, s: Store, e: Event)
    requires Enabled(s, e)
    ensures Legal(hash, s, [e]) && Final(hash, s, [e]) == Apply(hash, s, e)
  {
    var es, t := [e], Apply(hash, s, e);
    assert es[0] == e && es[1..] == [];
    assert Legal(hash, t, es[1..]) && Final(hash, t, es[1..]) == t;
    RunCons(hash, s, es, t);
  }

  /** A run and one more event. */
  lemma RunThen(hash: Bytes -> Hash, s: Store, es: seq<Event>, e: Event)
    requires Legal(hash, s, es) && Enabled(Final(hash, s, es), e)
    ensures Legal(hash, s, es + [e]) && Final(hash, s, es + [e]) == Apply(hash, Final(hash, s, es), e)
  {
    OneEvent(hash, Final(hash, s, es), e);
    RunsConcatenate(hash, s, es, [e]);
  }

  /** Put 0 of `bytes` in an empty store, in a staging phase, recoveries as given. */
  function Alone(bytes: Bytes, written: Bytes, f: Phase, rs: map<Pid, Recovery>): Store {
    Store(map[Staging(0) := 0], map[0 := written], map[0 := Put(Known(bytes), written, f)], rs, {0}, {0}, [])
  }

  lemma ReachOpened(hash: Bytes -> Hash, bytes: Bytes) returns (es: seq<Event>)
    ensures Legal(hash, EMPTY, es) && Final(hash, EMPTY, es) == Alone(bytes, [], Opened(0, 0), map[])
  {
    es := [];
    RunThen(hash, EMPTY, es, BeginPut(0, Known(bytes)));
    es := es + [BeginPut(0, Known(bytes))];
    RunThen(hash, EMPTY, es, Check(0));
    es := es + [Check(0)];
    RunThen(hash, EMPTY, es, Create(0, 0, 0));
    es := es + [Create(0, 0, 0)];
  }

  lemma ReachWriting(hash: Bytes -> Hash, bytes: Bytes) returns (es: seq<Event>)
    ensures Legal(hash, EMPTY, es) && Final(hash, EMPTY, es) == Alone(bytes, [], Writing(0, 0), map[])
  {
    es := ReachOpened(hash, bytes);
    RunThen(hash, EMPTY, es, Lock(0));
    es := es + [Lock(0)];
  }

  lemma ReachLinking(hash: Bytes -> Hash, bytes: Bytes) returns (es: seq<Event>)
    ensures Legal(hash, EMPTY, es) && Final(hash, EMPTY, es) == Alone(bytes, bytes, Linking(0, 0), map[])
  {
    es := ReachWriting(hash, bytes);
    assert [] + bytes == bytes;
    RunThen(hash, EMPTY, es, Write(0, bytes));
    es := es + [Write(0, bytes)];
    RunThen(hash, EMPTY, es, Finish(0));
    es := es + [Finish(0)];
  }

  lemma ReachVisited(hash: Bytes -> Hash, bytes: Bytes) returns (es: seq<Event>)
    ensures Legal(hash, EMPTY, es)
    ensures Final(hash, EMPTY, es) == Alone(bytes, [], Opened(0, 0), map[1 := Visiting(Staging(0), 0)])
  {
    es := ReachOpened(hash, bytes);
    RunThen(hash, EMPTY, es, BeginRecovery(1));
    es := es + [BeginRecovery(1)];
    RunThen(hash, EMPTY, es, Visit(1, Staging(0)));
    es := es + [Visit(1, Staging(0))];
  }

  lemma ReachUnlocked(hash: Bytes -> Hash, bytes: Bytes) returns (es: seq<Event>)
    ensures Legal(hash, EMPTY, es)
    ensures Final(hash, EMPTY, es) == Alone(bytes, [], Opened(0, 0), map[1 := Removing(Staging(0))])
  {
    es := ReachVisited(hash, bytes);
    RunThen(hash, EMPTY, es, LockFile(1));
    es := es + [LockFile(1)];
    RunThen(hash, EMPTY, es, Unlock(1));
    es := es + [Unlock(1)];
  }

  /** A pass takes and drops the lock before the put takes it. */
  lemma ReachLocking(hash: Bytes -> Hash, bytes: Bytes) returns (es: seq<Event>)
    ensures Legal(hash, EMPTY, es)
    ensures Final(hash, EMPTY, es) == Alone(bytes, [], Writing(0, 0), map[1 := Removing(Staging(0))])
  {
    es := ReachUnlocked(hash, bytes);
    RunThen(hash, EMPTY, es, Lock(0));
    es := es + [Lock(0)];
  }

  /** The put is staged under a name that is there, and recovery can remove it. */
  ghost predicate Exposed(hash: Bytes -> Hash, s: Store, p: Pid) {
    && p in s.puts && Stages(s.puts[p].phase) && StagingName(s, p) in s.names && CanLose(hash, s, StagingName(s, p))
  }

  /** Each window opens in a run from an empty store, for a put of any bytes: before the lock,
      before the link, and while the put holds its lock. */
  lemma TheWindowsAreReachable(hash: Bytes -> Hash, bytes: Bytes)
    ensures Found(hash, {}, EMPTY)
    ensures exists es :: Legal(hash, EMPTY, es) && Exposed(hash, Final(hash, EMPTY, es), 0)
                         && Final(hash, EMPTY, es).puts[0].phase.Opened?
    ensures exists es :: Legal(hash, EMPTY, es) && Exposed(hash, Final(hash, EMPTY, es), 0)
                         && Final(hash, EMPTY, es).puts[0].phase.Linking?
    ensures exists es :: Legal(hash, EMPTY, es) && Exposed(hash, Final(hash, EMPTY, es), 0)
                         && Final(hash, EMPTY, es).puts[0].phase.Writing?
  {
    var early := ReachOpened(hash, bytes);
    RecoveryCanLoseExactlyTheUnguarded(hash, {}, EMPTY, early, 0);
    assert Exposed(hash, Final(hash, EMPTY, early), 0);
    var linking := ReachLinking(hash, bytes);
    RecoveryCanLoseExactlyTheUnguarded(hash, {}, EMPTY, linking, 0);
    assert Exposed(hash, Final(hash, EMPTY, linking), 0);
    var locking := ReachLocking(hash, bytes);
    var s := Final(hash, EMPTY, locking);
    assert s.recoveries[1] == Removing(Staging(0));
    assert !Guarded(s, 0);
    RecoveryCanLoseExactlyTheUnguarded(hash, {}, EMPTY, locking, 0);
    assert Exposed(hash, s, 0);
  }

  /** And the guarded state is reachable, so the lock does protect something. */
  lemma TheGuardIsReachable(hash: Bytes -> Hash, bytes: Bytes)
    ensures exists es :: Legal(hash, EMPTY, es) && Guarded(Final(hash, EMPTY, es), 0)
  {
    var writing := ReachWriting(hash, bytes);
    assert Guarded(Final(hash, EMPTY, writing), 0);
  }
}
