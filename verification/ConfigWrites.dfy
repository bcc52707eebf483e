/** Configuration writes: manual edits staged on a draft and compared before they are
    installed, and locked edit transactions, both with backup and rollback.

    Processes interleave one file operation at a time; any read, write or removal may fail,
    and any process may crash anywhere.  A write replaces its file whole or not at all.
    Something else may rewrite both files, but not while a process holds the lock. */
module ConfigWrites {
  import opened Common

  type Bytes = seq<bv8>
  type Pid = nat
  type File = Option<Bytes>

  const MAX_BYTES: nat := 1024 * 1024

  /** What the format makes of contents: whether an edited draft parses, and the draft
      reconciled with the content it replaces. */
  datatype Format = Format(accepts: Bytes -> bool, reconcile: (Bytes, Bytes) -> Option<Bytes>)

  // An operation that `fails` does so by itself.

  /** `bounded_file::read`. */
  predicate Reads(f: File, fails: bool) {
    !fails && f.Some? && |f.value| <= MAX_BYTES
  }

  /** Reading a file that may be missing. */
  predicate ReadsOptional(f: File, fails: bool) {
    !fails && (f.Some? ==> |f.value| <= MAX_BYTES)
  }

  datatype Phase =
    | Staged(original: Bytes)
    | Validated(original: Bytes, edited: Bytes)                 // about to lock
    | Comparing(original: Bytes, edited: Bytes)                 // locked, from here on
    | Opening                                                   // a transaction about to read
    | Rereading(base: Bytes, output: Bytes)
    | Direct(base: Bytes, output: Bytes)                        // about to write without a backup
    | Prepared(base: Bytes, previous: Bytes, output: Bytes)     // about to read the backup
    | Saving(base: Bytes, previous: Bytes, output: Bytes, prior: File)
    | Saved(base: Bytes, output: Bytes, prior: File)            // the backup is written
    | Restoring(prior: File)
    | Over

  datatype Outcome = Written(base: Bytes, output: Bytes, backed: bool) | Refused | RolledBack | Unrestored | Crashed

  /** Who changed what: an attempt that got the lock, or something else. */
  datatype Entry =
    | Attempt(pid: Pid, live0: File, backup0: File, live1: File, backup1: File, outcome: Outcome)
    | Foreign(live0: File, live1: File)

  datatype Lock = Lock(pid: Pid, live0: File, backup0: File)

  datatype State = State(live: File, backup: File, lock: Option<Lock>, sessions: map<Pid, Phase>, ledger: seq<Entry>)

  datatype Event =
    | Stage(pid: Pid, fails: bool)
    | Finish(pid: Pid, edited: Bytes, fails: bool)             // the editor is done; the draft is read and parsed
    | Acquire(pid: Pid)
    | Begin(pid: Pid)
    | Compare(pid: Pid, fails: bool)
    | Open(pid: Pid, change: Bytes -> Option<Bytes>, backed: bool, fails: bool)
    | Reread(pid: Pid, fails: bool)
    | ReadBackup(pid: Pid, fails: bool)
    | WriteBackup(pid: Pid, fails: bool)
    | WriteLive(pid: Pid, fails: bool)
    | Restore(pid: Pid, fails: bool)
    | Crash(pid: Pid)
    | Meddle(live: File, backup: File)

  predicate Holds(s: State, p: Pid) {
    s.lock.Some? && s.lock.value.pid == p
  }

  predicate At(s: State, p: Pid) {
    p in s.sessions && s.sessions[p] != Over
  }

  predicate Enabled(s: State, e: Event) {
    match e
    case Stage(p, _) => p !in s.sessions
    case Begin(p) => p !in s.sessions
    case Finish(p, _, _) => At(s, p) && s.sessions[p].Staged?
    case Acquire(p) => At(s, p) && s.sessions[p].Validated?
    case Compare(p, _) => At(s, p) && s.sessions[p].Comparing?
    case Open(p, _, _, _) => At(s, p) && s.sessions[p].Opening?
    case Reread(p, _) => At(s, p) && s.sessions[p].Rereading?
    case ReadBackup(p, _) => At(s, p) && s.sessions[p].Prepared?
    case WriteBackup(p, _) => At(s, p) && s.sessions[p].Saving?
    case WriteLive(p, _) => At(s, p) && (s.sessions[p].Saved? || s.sessions[p].Direct?)
    case Restore(p, _) => At(s, p) && s.sessions[p].Restoring?
    case Crash(p) => At(s, p)
    case Meddle(_, _) => s.lock.None?
  }

  function Move(s: State, p: Pid, phase: Phase): State {
    s.(sessions := s.sessions[p := phase])
  }

  /** The session is over; if it held the lock, it releases it and its attempt is entered. */
  function End(s: State, p: Pid, outcome: Outcome): State {
    if Holds(s, p) then
      var l := s.lock.value;
      State(s.live, s.backup, None, s.sessions[p := Over],
            s.ledger + [Attempt(p, l.live0, l.backup0, s.live, s.backup, outcome)])
    else Move(s, p, Over)
  }

  /** `ConfigTransactionLock::acquire` does not wait. */
  function TryLock(s: State, p: Pid, phase: Phase): State {
    if s.lock.Some? then Move(s, p, Over)
    else Move(s, p, phase).(lock := Some(Lock(p, s.live, s.backup)))
  }

  function Apply(format: Format, s: State, e: Event): State
    requires Enabled(s, e)
  {
    match e
    case Stage(p, fails) => Move(s, p, if Reads(s.live, fails) then Staged(s.live.value) else Over)
    case Finish(p, edited, fails) =>
      Move(s, p, if Reads(Some(edited), fails) && format.accepts(edited) then Validated(s.sessions[p].original, edited)
                 else Over)
    case Acquire(p) => TryLock(s, p, Comparing(s.sessions[p].original, s.sessions[p].edited))
    case Begin(p) => TryLock(s, p, Opening)
    case Compare(p, fails) =>
      var c := s.sessions[p];
      if !Reads(s.live, fails) || s.live.value != c.original then End(s, p, Refused)
      else
        var output := format.reconcile(s.live.value, c.edited);
        if output.None? then End(s, p, Refused) else Move(s, p, Prepared(c.original, s.live.value, output.value))
    case Open(p, change, backed, fails) =>
      if !Reads(s.live, fails) || change(s.live.value).None? then End(s, p, Refused)
      else
        var output := change(s.live.value).value;
        Move(s, p, if backed then Rereading(s.live.value, output) else Direct(s.live.value, output))
    case Reread(p, fails) =>
      if !Reads(s.live, fails) then End(s, p, Refused)
      else Move(s, p, Prepared(s.sessions[p].base, s.live.value, s.sessions[p].output))
    case ReadBackup(p, fails) =>
      var c := s.sessions[p];
      if !ReadsOptional(s.backup, fails) then End(s, p, Refused)
      else Move(s, p, Saving(c.base, c.previous, c.output, s.backup))
    case WriteBackup(p, fails) =>
      var c := s.sessions[p];
      if fails then End(s, p, Refused)
      else Move(s, p, Saved(c.base, c.output, c.prior)).(backup := Some(c.previous))
    case WriteLive(p, fails) =>
      var c := s.sessions[p];
      if !fails then End(s.(live := Some(c.output)), p, Written(c.base, c.output, c.Saved?))
      else if c.Direct? then End(s, p, Refused)
      else Move(s, p, Restoring(c.prior))
    case Restore(p, fails) =>
      if fails then End(s, p, Unrestored)
      else End(s.(backup := s.sessions[p].prior), p, RolledBack)
    case Crash(p) => End(s, p, Crashed)
    case Meddle(live, backup) => s.(live := live, backup := backup, ledger := s.ledger + [Foreign(s.live, live)])
  }

  function Start(live: File, backup: File): State {
    State(live, backup, None, map[], [])
  }

  function Final(format: Format, s: State, es: seq<Event>): Option<State> {
    if es == [] then Some(s)
    else
      var before := Final(format, s, es[..|es| - 1]);
      var e := es[|es| - 1];
      if before.Some? && Enabled(before.value, e) then Some(Apply(format, before.value, e)) else None
  }

  // ---------------------------------------------------------------- what an attempt may do

  /** What an attempt leaves behind, by how it ended. */
  predicate GoodAttempt(a: Entry)
    requires a.Attempt?
  {
    match a.outcome
    case Written(base, output, backed) =>
      // The update was made from exactly what it replaces, which is now the backup.
      && a.live0 == Some(base) && a.live1 == Some(output)
      && a.backup1 == if backed then Some(base) else a.backup0
    case Refused => a.live1 == a.live0 && a.backup1 == a.backup0
    case RolledBack => a.live1 == a.live0 && a.backup1 == a.backup0
    case Unrestored => a.live1 == a.live0 && a.live0.Some? && a.backup1 == a.live0
    case Crashed => a.live1 == a.live0 && (a.backup1 == a.backup0 || a.backup1 == a.live0)
  }

  predicate GoodEntry(e: Entry) {
    e.Attempt? ==> GoodAttempt(e)
  }

  /** The live content before entry i, or after the last one. */
  function LiveAt(live: File, ledger: seq<Entry>, i: int): File
    requires 0 <= i <= |ledger|
  {
    if i == 0 then live else ledger[i - 1].live1
  }

  function Latest(live: File, ledger: seq<Entry>): File {
    LiveAt(live, ledger, |ledger|)
  }

  /** Each entry starts from the live content the one before it left. */
  predicate Linked(live: File, ledger: seq<Entry>) {
    forall i :: 0 <= i < |ledger| ==> ledger[i].live0 == LiveAt(live, ledger, i)
  }

  /** The phase of the lock holder, against what the files held when it got the lock. */
  predicate GoodPhase(phase: Phase, l: Lock, live: File, backup: File) {
    && live == l.live0
    && match phase
       case Staged(_) => false
       case Validated(_, _) => false
       case Over => false
       case Opening => backup == l.backup0
       case Comparing(_, _) => backup == l.backup0
       case Rereading(base, _) => live == Some(base) && backup == l.backup0
       case Direct(base, _) => live == Some(base) && backup == l.backup0
       case Prepared(base, previous, _) => live == Some(base) && previous == base && backup == l.backup0
       case Saving(base, previous, _, prior) =>
         live == Some(base) && previous == base && backup == l.backup0 && prior == backup
       case Saved(base, _, prior) => live == Some(base) && backup == live && prior == l.backup0
       case Restoring(prior) => live.Some? && backup == live && prior == l.backup0
  }

  predicate Unlocked(phase: Phase) {
    phase.Staged? || phase.Validated? || phase.Over?
  }

  predicate GoodSessions(s: State) {
    && (s.lock.Some? ==>
          && s.lock.value.pid in s.sessions
          && GoodPhase(s.sessions[s.lock.value.pid], s.lock.value, s.live, s.backup))
    && forall p :: p in s.sessions && !Holds(s, p) ==> Unlocked(s.sessions[p])
  }

  predicate GoodLedger(live: File, s: State) {
    && Linked(live, s.ledger) && s.live == Latest(live, s.ledger)
    && forall i :: 0 <= i < |s.ledger| ==> GoodEntry(s.ledger[i])
  }

  lemma EntryKeepsLedger(live: File, ledger: seq<Entry>, entry: Entry)
    requires Linked(live, ledger) && entry.live0 == Latest(live, ledger)
    ensures Linked(live, ledger + [entry]) && Latest(live, ledger + [entry]) == entry.live1
  {
    var longer := ledger + [entry];
    forall i | 0 <= i < |longer| ensures longer[i].live0 == LiveAt(live, longer, i) {
      assert i <= |ledger| && LiveAt(live, longer, i) == LiveAt(live, ledger, i);
    }
  }

  /** A session enters at most one attempt, when it ends. */
  predicate OnceEach(s: State) {
    && (forall i :: 0 <= i < |s.ledger| && s.ledger[i].Attempt? ==>
          s.ledger[i].pid in s.sessions && s.sessions[s.ledger[i].pid] == Over)
    && forall i, j :: 0 <= i < j < |s.ledger| && s.ledger[i].Attempt? && s.ledger[j].Attempt? ==>
         s.ledger[i].pid != s.ledger[j].pid
  }

  predicate Sound(live: File, s: State) {
    GoodLedger(live, s) && GoodSessions(s) && OnceEach(s)
  }

  lemma EndKeepsLedger(live: File, s: State, t: State, p: Pid, outcome: Outcome)
    requires GoodLedger(live, s) && Holds(s, p) && t == s.(live := t.live, backup := t.backup)
    requires s.lock.value.live0 == s.live
    requires GoodEntry(Attempt(p, s.lock.value.live0, s.lock.value.backup0, t.live, t.backup, outcome))
    ensures GoodLedger(live, End(t, p, outcome))
  {
    EntryKeepsLedger(live, s.ledger, Attempt(p, s.lock.value.live0, s.lock.value.backup0, t.live, t.backup, outcome));
  }

  lemma EndKeepsSessions(s: State, t: State, p: Pid, outcome: Outcome)
    requires GoodSessions(s) && Holds(s, p) && t.lock == s.lock && t.sessions == s.sessions
    ensures GoodSessions(End(t, p, outcome))
  {
  }

  lemma EndKeepsOnce(s: State, t: State, p: Pid, outcome: Outcome)
    requires OnceEach(s) && Holds(s, p) && p in s.sessions && s.sessions[p] != Over
    requires t.lock == s.lock && t.sessions == s.sessions && t.ledger == s.ledger
    ensures OnceEach(End(t, p, outcome))
  {
  }

  /** Ending the holder's session enters a good attempt, whatever it just did to the files. */
  lemma HolderEnds(live: File, s: State, t: State, p: Pid, outcome: Outcome)
    requires Sound(live, s) && Holds(s, p) && t == s.(live := t.live, backup := t.backup)
    requires GoodEntry(Attempt(p, s.lock.value.live0, s.lock.value.backup0, t.live, t.backup, outcome))
    ensures Sound(live, End(t, p, outcome))
  {
    EndKeepsLedger(live, s, t, p, outcome);
    EndKeepsSessions(s, t, p, outcome);
    EndKeepsOnce(s, t, p, outcome);
  }

  /** Any other session ends without a trace. */
  lemma BystanderEnds(live: File, s: State, p: Pid, phase: Phase)
    requires Sound(live, s) && !Holds(s, p) && Unlocked(phase) && (p in s.sessions ==> s.sessions[p] != Over)
    ensures Sound(live, Move(s, p, phase))
  {
  }

  lemma HolderMoves(live: File, s: State, t: State, p: Pid, phase: Phase)
    requires Sound(live, s) && Holds(s, p) && t == Move(s, p, phase).(backup := t.backup)
    requires GoodPhase(phase, s.lock.value, s.live, t.backup)
    ensures Sound(live, t)
  {
    assert GoodLedger(live, t);
    assert GoodSessions(t);
    MoveKeepsOnce(s, t, p, phase);
  }

  lemma MoveKeepsOnce(s: State, t: State, p: Pid, phase: Phase)
    requires OnceEach(s) && p in s.sessions && s.sessions[p] != Over
    requires t.ledger == s.ledger && t.sessions == s.sessions[p := phase]
    ensures OnceEach(t)
  {
  }

  lemma LockTaken(live: File, s: State, p: Pid, phase: Phase)
    requires Sound(live, s) && (p in s.sessions ==> s.sessions[p] != Over && !Holds(s, p))
    requires phase.Opening? || phase.Comparing?
    ensures Sound(live, TryLock(s, p, phase))
  {
    if s.lock.Some? {
      BystanderEnds(live, s, p, Over);
    }
  }

  lemma WithoutLock(format: Format, live: File, s: State, e: Event)
    requires Sound(live, s) && Enabled(s, e) && (e.Stage? || e.Finish? || e.Acquire? || e.Begin?)
    ensures Sound(live, Apply(format, s, e))
  {
    match e
    case Stage(p, _) => BystanderEnds(live, s, p, Apply(format, s, e).sessions[p]);
    case Finish(p, _, _) => BystanderEnds(live, s, p, Apply(format, s, e).sessions[p]);
    case Acquire(p) => LockTaken(live, s, p, Comparing(s.sessions[p].original, s.sessions[p].edited));
    case Begin(p) => LockTaken(live, s, p, Opening);
  }

  /** It goes on only from the staged content, still live, and then reconciles with it. */
  lemma CompareSound(format: Format, live: File, s: State, p: Pid, fails: bool)
    requires Sound(live, s) && Enabled(s, Compare(p, fails))
    ensures var t, c := Apply(format, s, Compare(p, fails)), s.sessions[p];
            && Sound(live, t) && t.live == s.live && t.backup == s.backup
            && (t.sessions[p] != Over <==>
                  Reads(s.live, fails) && s.live == Some(c.original) && format.reconcile(c.original, c.edited).Some?)
            && (t.sessions[p] != Over ==>
                  t.sessions[p] == Prepared(c.original, c.original, format.reconcile(c.original, c.edited).value))
  {
    var c := s.sessions[p];
    assert Holds(s, p);
    if !Reads(s.live, fails) || s.live.value != c.original {
      HolderEnds(live, s, s, p, Refused);
    } else {
      var output := format.reconcile(s.live.value, c.edited);
      if output.None? {
        HolderEnds(live, s, s, p, Refused);
      } else {
        HolderMoves(live, s, Apply(format, s, Compare(p, fails)), p, Prepared(c.original, s.live.value, output.value));
      }
    }
  }

  lemma OpenSound(format: Format, live: File, s: State, p: Pid, change: Bytes -> Option<Bytes>, backed: bool,
                  fails: bool)
    requires Sound(live, s) && Enabled(s, Open(p, change, backed, fails))
    ensures Sound(live, Apply(format, s, Open(p, change, backed, fails)))
  {
    var t := Apply(format, s, Open(p, change, backed, fails));
    assert Holds(s, p);
    if !Reads(s.live, fails) || change(s.live.value).None? {
      HolderEnds(live, s, s, p, Refused);
    } else {
      HolderMoves(live, s, t, p, t.sessions[p]);
    }
  }

  lemma ReadingsSound(format: Format, live: File, s: State, e: Event)
    requires Sound(live, s) && Enabled(s, e) && (e.Reread? || e.ReadBackup?)
    ensures Sound(live, Apply(format, s, e))
  {
    var t := Apply(format, s, e);
    assert Holds(s, e.pid);
    if t.sessions[e.pid] == Over {
      HolderEnds(live, s, s, e.pid, Refused);
    } else {
      HolderMoves(live, s, t, e.pid, t.sessions[e.pid]);
    }
  }

  lemma WriteBackupSound(format: Format, live: File, s: State, p: Pid, fails: bool)
    requires Sound(live, s) && Enabled(s, WriteBackup(p, fails))
    ensures Sound(live, Apply(format, s, WriteBackup(p, fails)))
  {
    assert Holds(s, p);
    if fails {
      HolderEnds(live, s, s, p, Refused);
    } else {
      var t := Apply(format, s, WriteBackup(p, fails));
      HolderMoves(live, s, t, p, t.sessions[p]);
    }
  }

  /** The content locked and read is replaced by the output made from it. */
  lemma WriteLiveSound(format: Format, live: File, s: State, p: Pid, fails: bool)
    requires Sound(live, s) && Enabled(s, WriteLive(p, fails))
    ensures var t, c, l := Apply(format, s, WriteLive(p, fails)), s.sessions[p], s.lock;
            && Sound(live, t) && l.Some? && s.live == l.value.live0
            && if !fails then
                 && s.live == Some(c.base) && t.live == Some(c.output) && t.backup == s.backup && t.lock.None?
                 && t.ledger == s.ledger + [Attempt(p, s.live, l.value.backup0, t.live, t.backup,
                                                    Written(c.base, c.output, c.Saved?))]
               else
                 && t.live == s.live && t.backup == s.backup
                 && t.sessions[p] == if c.Direct? then Over else Restoring(l.value.backup0)
  {
    var c := s.sessions[p];
    assert Holds(s, p);
    if !fails {
      HolderEnds(live, s, s.(live := Some(c.output)), p, Written(c.base, c.output, c.Saved?));
    } else if c.Direct? {
      HolderEnds(live, s, s, p, Refused);
    } else {
      HolderMoves(live, s, Apply(format, s, WriteLive(p, fails)), p, Restoring(c.prior));
    }
  }

  lemma RestoreSound(format: Format, live: File, s: State, p: Pid, fails: bool)
    requires Sound(live, s) && Enabled(s, Restore(p, fails))
    ensures Sound(live, Apply(format, s, Restore(p, fails)))
  {
    assert Holds(s, p);
    if fails {
      HolderEnds(live, s, s, p, Unrestored);
    } else {
      HolderEnds(live, s, s.(backup := s.sessions[p].prior), p, RolledBack);
    }
  }

  lemma CrashSound(format: Format, live: File, s: State, p: Pid)
    requires Sound(live, s) && Enabled(s, Crash(p))
    ensures var t := Apply(format, s, Crash(p));
            && Sound(live, t) && t.live == s.live && t.backup == s.backup
            && if Holds(s, p) then
                 var l := s.lock.value;
                 && t.lock.None? && t.live == l.live0 && (t.backup == l.backup0 || t.backup == l.live0)
                 && t.ledger == s.ledger + [Attempt(p, l.live0, l.backup0, t.live, t.backup, Crashed)]
               else t.lock == s.lock && t.ledger == s.ledger
  {
    if Holds(s, p) {
      HolderEnds(live, s, s, p, Crashed);
    } else {
      BystanderEnds(live, s, p, Over);
    }
  }

  lemma MeddleSound(format: Format, live: File, s: State, live': File, backup': File)
    requires Sound(live, s) && Enabled(s, Meddle(live', backup'))
    ensures Sound(live, Apply(format, s, Meddle(live', backup')))
  {
    EntryKeepsLedger(live, s.ledger, Foreign(s.live, live'));
  }

  /** Every step of every process keeps the ledger good and linked. */
  lemma SoundStep(format: Format, live: File, s: State, e: Event)
    requires Sound(live, s) && Enabled(s, e)
    ensures Sound(live, Apply(format, s, e))
  {
    match e
    case Stage(_, _) => WithoutLock(format, live, s, e);
    case Finish(_, _, _) => WithoutLock(format, live, s, e);
    case Acquire(_) => WithoutLock(format, live, s, e);
    case Begin(_) => WithoutLock(format, live, s, e);
    case Compare(p, fails) => CompareSound(format, live, s, p, fails);
    case Open(p, change, backed, fails) => OpenSound(format, live, s, p, change, backed, fails);
    case Reread(_, _) => ReadingsSound(format, live, s, e);
    case ReadBackup(_, _) => ReadingsSound(format, live, s, e);
    case WriteBackup(p, fails) => WriteBackupSound(format, live, s, p, fails);
    case WriteLive(p, fails) => WriteLiveSound(format, live, s, p, fails);
    case Restore(p, fails) => RestoreSound(format, live, s, p, fails);
    case Crash(p) => CrashSound(format, live, s, p);
    case Meddle(live', backup') => MeddleSound(format, live, s, live', backup');
  }

  /** No lost update, in any interleaving of edits, transactions, failures and crashes: the
      ledger is one chain of live contents; every write replaced exactly the content it was
      made from, and a backed-up write left that content as the backup; every attempt that
      did not write left the live content alone, and the backup too unless it crashed or could
      not restore it, in which case the backup is the live content; and no session writes
      twice. */
  lemma {:induction false} NoLostUpdate(format: Format, live: File, backup: File, es: seq<Event>)
    requires Final(format, Start(live, backup), es).Some?
    ensures Sound(live, Final(format, Start(live, backup), es).value)
    decreases |es|
  {
    if es != [] {
      NoLostUpdate(format, live, backup, es[..|es| - 1]);
      SoundStep(format, live, Final(format, Start(live, backup), es[..|es| - 1]).value, es[|es| - 1]);
    }
  }
}
