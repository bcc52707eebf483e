/** The final edit transaction and the backed-up write as they run under the lock, one
    statement after another, each of which is a step of the interleaved model. */
module ConfigFiles {
  import opened Common
  import opened ConfigWrites

  /** Which operations fail by themselves. */
  datatype Faults = Faults(
    compare: bool, reread: bool, readBackup: bool, writeBackup: bool, writeLive: bool, restore: bool)

  /** Steps a phase is away from its end. */
  function Rank(phase: Phase): nat {
    match phase
    case Comparing(_, _) => 5
    case Rereading(_, _) => 5
    case Prepared(_, _, _) => 4
    case Saving(_, _, _, _) => 3
    case Saved(_, _, _) => 2
    case Direct(_, _) => 1
    case Restoring(_) => 1
    case Staged(_) => 0
    case Validated(_, _) => 0
    case Opening => 0
    case Over => 0
  }

  function NextEvent(phase: Phase, p: Pid, f: Faults): Event
    requires Rank(phase) > 0
  {
    match phase
    case Comparing(_, _) => Compare(p, f.compare)
    case Rereading(_, _) => Reread(p, f.reread)
    case Prepared(_, _, _) => ReadBackup(p, f.readBackup)
    case Saving(_, _, _, _) => WriteBackup(p, f.writeBackup)
    case Restoring(_) => Restore(p, f.restore)
    case Saved(_, _, _) => WriteLive(p, f.writeLive)
    case Direct(_, _) => WriteLive(p, f.writeLive)
  }

  predicate Ready(s: State, p: Pid, phase: Phase, live: File, backup: File) {
    Holds(s, p) && p in s.sessions && s.sessions[p] == phase && s.live == live && s.backup == backup
  }

  /** The holder's next step. */
  function Advance(format: Format, s: State, p: Pid, f: Faults): State
    requires p in s.sessions && Rank(s.sessions[p]) > 0
  {
    Apply(format, s, NextEvent(s.sessions[p], p, f))
  }

  lemma AdvanceDescends(format: Format, s: State, p: Pid, f: Faults)
    requires p in s.sessions && Rank(s.sessions[p]) > 0
    ensures p in Advance(format, s, p, f).sessions
    ensures Rank(Advance(format, s, p, f).sessions[p]) < Rank(s.sessions[p])
  {
  }

  /** The holder's steps to its end, with nobody else stepping. */
  function Drive(format: Format, s: State, p: Pid, f: Faults): State
    requires p in s.sessions
    decreases Rank(s.sessions[p])
  {
    if Rank(s.sessions[p]) == 0 then s
    else
      AdvanceDescends(format, s, p, f);
      Drive(format, Advance(format, s, p, f), p, f)
  }

  /** The end of an attempt: what the files hold, and whether the live one was written. */
  predicate Ended(t: State, live: File, backup: File, written: bool) {
    && t.live == live && t.backup == backup && t.ledger != []
    && t.ledger[|t.ledger| - 1].Attempt? && (written <==> t.ledger[|t.ledger| - 1].outcome.Written?)
  }

  // The same, said without the model.

  /** The file is there, small enough, and its read does not fail. */
  predicate Legible(file: File, fails: bool) {
    !fails && file.Some? && |file.value| <= 1_048_576
  }

  /** The prior backup can be read, if there is one, and the new one written. */
  predicate Saves(prior: File, f: Faults) {
    !f.readBackup && !f.writeBackup && (prior == None || |prior.value| <= 1_048_576)
  }

  /** What a backed-up write leaves as the backup: the previous content, once it is saved, but the
      prior backup again if the live write failed and it could be restored. */
  function BackupAfter(previous: Bytes, prior: File, f: Faults): File {
    if !Saves(prior, f) then prior
    else if f.writeLive && !f.restore then prior
    else Some(previous)
  }

  class ConfigPair {
    var live: File
    var backup: File

    constructor (live: File, backup: File)
      ensures this.live == live && this.backup == backup
    {
      this.live, this.backup := live, backup;
    }

    /** The live write, and the restoration of the backup when it fails. */
    method WriteOrRestore(format: Format, base: Bytes, output: Bytes, prior: File, f: Faults, ghost s: State,
                          ghost p: Pid)
      returns (written: bool)
      requires Ready(s, p, Saved(base, output, prior), live, backup)
      modifies this
      ensures written <==> !f.writeLive
      ensures live == if written then Some(output) else old(live)
      ensures backup == if !written && !f.restore then prior else old(backup)
      ensures Ended(Drive(format, s, p, f), live, backup, written)
    {
      ghost var t := Advance(format, s, p, f);
      if !f.writeLive {
        live := Some(output);
        assert Drive(format, t, p, f) == t;
        return true;
      }
      assert Ready(t, p, Restoring(prior), live, backup);
      ghost var u := Advance(format, t, p, f);
      assert Drive(format, u, p, f) == u;
      assert Drive(format, t, p, f) == u;
      if !f.restore {
        backup := prior;
      }
      written := false;
    }

    /** From the previous content in hand: read the backup, write it, write the live file. */
    method InstallWithBackup(format: Format, base: Bytes, previous: Bytes, output: Bytes, f: Faults, ghost s: State,
                             ghost p: Pid)
      returns (written: bool)
      requires Ready(s, p, Prepared(base, previous, output), live, backup)
      modifies this
      ensures written <==> Saves(old(backup), f) && !f.writeLive
      ensures live == if written then Some(output) else old(live)
      ensures backup == BackupAfter(previous, old(backup), f)
      ensures Ended(Drive(format, s, p, f), live, backup, written)
    {
      ghost var t := Advance(format, s, p, f);
      if !ReadsOptional(backup, f.readBackup) {
        assert Drive(format, t, p, f) == t;
        return false;
      }
      var prior := backup;
      assert Ready(t, p, Saving(base, previous, output, prior), live, backup);
      ghost var u := Advance(format, t, p, f);
      assert Drive(format, t, p, f) == Drive(format, u, p, f);
      if f.writeBackup {
        assert Drive(format, u, p, f) == u;
        return false;
      }
      backup := Some(previous);
      assert Ready(u, p, Saved(base, output, prior), live, backup);
      written := WriteOrRestore(format, base, output, prior, f, u, p);
    }

    /** `ConfigDraft::commit`, from the lock on. */
    method CommitEdit(format: Format, original: Bytes, edited: Bytes, f: Faults, ghost s: State, ghost p: Pid)
      returns (written: bool)
      requires Ready(s, p, Comparing(original, edited), live, backup)
      modifies this
      ensures var fit := Legible(old(live), f.compare) && old(live).value == original;
              var output := format.reconcile(original, edited);
              && (written <==> fit && output.Some? && Saves(old(backup), f) && !f.writeLive)
              && live == (if written then output else old(live))
              && backup == if fit && output.Some? then BackupAfter(original, old(backup), f) else old(backup)
      ensures Ended(Drive(format, s, p, f), live, backup, written)
    {
      ghost var t := Advance(format, s, p, f);
      if !Reads(live, f.compare) {
        assert Drive(format, t, p, f) == t;
        return false;
      }
      var current := live.value;
      if current != original {
        assert Drive(format, t, p, f) == t;
        return false;
      }
      var document := format.reconcile(current, edited);
      if document.None? {
        assert Drive(format, t, p, f) == t;
        return false;
      }
      assert Ready(t, p, Prepared(original, current, document.value), live, backup);
      written := InstallWithBackup(format, original, current, document.value, f, t, p);
    }

    /** `ConfigEditTransaction::commit`, once the document is rendered and parses. */
    method CommitTransaction(format: Format, base: Bytes, output: Bytes, backed: bool, f: Faults, ghost s: State,
                             ghost p: Pid)
      returns (written: bool)
      requires Ready(s, p, if backed then Rereading(base, output) else Direct(base, output), live, backup)
      modifies this
      ensures var fit := backed ==> Legible(old(live), f.reread) && Saves(old(backup), f);
              && (written <==> fit && !f.writeLive)
              && live == (if written then Some(output) else old(live))
              && backup == if backed && Legible(old(live), f.reread)
                           then BackupAfter(old(live).value, old(backup), f) else old(backup)
      ensures Ended(Drive(format, s, p, f), live, backup, written)
    {
      ghost var t := Advance(format, s, p, f);
      if !backed {
        assert Drive(format, t, p, f) == t;
        if f.writeLive {
          return false;
        }
        live := Some(output);
        return true;
      }
      if !Reads(live, f.reread) {
        assert Drive(format, t, p, f) == t;
        return false;
      }
      var previous := live.value;
      assert Ready(t, p, Prepared(base, previous, output), live, backup);
      written := InstallWithBackup(format, base, previous, output, f, t, p);
    }
  }

  /** Driving the holder is a run of the model, so what every run keeps it keeps: from any
      sound state the attempt that CommitEdit and CommitTransaction make ends in a sound one. */
  lemma {:induction false} DriveIsSound(format: Format, live: File, s: State, p: Pid, f: Faults)
    requires Sound(live, s) && p in s.sessions
    ensures Sound(live, Drive(format, s, p, f))
    decreases Rank(s.sessions[p])
  {
    if Rank(s.sessions[p]) > 0 {
      AdvanceDescends(format, s, p, f);
      SoundStep(format, live, s, NextEvent(s.sessions[p], p, f));
      DriveIsSound(format, live, Advance(format, s, p, f), p, f);
    }
  }

  // ---------------------------------------------------------------- from start to end

  /** The steps, one after another, each enabled where it is taken. */
  ghost predicate Takes(format: Format, s: State, es: seq<Event>, t: State)
    decreases |es|
  {
    if es == [] then t == s
    else Enabled(s, es[0]) && Takes(format, Apply(format, s, es[0]), es[1..], t)
  }

  lemma TakesOne(format: Format, s: State, e: Event, es: seq<Event>, t: State)
    requires Enabled(s, e) && Takes(format, Apply(format, s, e), es, t)
    ensures Takes(format, s, [e] + es, t)
  {
    assert ([e] + es)[0] == e && ([e] + es)[1..] == es;
  }

  /** The session ends; its entry tells the files as they were locked and as they are left. */
  predicate Ends(s: State, t: State, p: Pid, live: File, backup: File, outcome: Outcome) {
    && t.live == live && t.backup == backup && t.lock == None && p in t.sessions && t.sessions[p] == Over
    && t.ledger == s.ledger + [Attempt(p, s.live, s.backup, live, backup, outcome)]
  }

  /** A backed-up write alone and without failures. */
  lemma SavedWrite(format: Format, s: State, p: Pid, base: Bytes, previous: Bytes, output: Bytes) returns (t: State)
    requires s.lock == Some(Lock(p, s.live, s.backup)) && p in s.sessions
    requires s.sessions[p] == Prepared(base, previous, output) && Saves(s.backup, FINE)
    ensures Takes(format, s, [ReadBackup(p, false), WriteBackup(p, false), WriteLive(p, false)], t)
    ensures Ends(s, t, p, Some(output), Some(previous), Written(base, output, true))
  {
    var s1 := Apply(format, s, ReadBackup(p, false));
    var s2 := Apply(format, s1, WriteBackup(p, false));
    t := Apply(format, s2, WriteLive(p, false));
    TakesOne(format, s2, WriteLive(p, false), [], t);
    TakesOne(format, s1, WriteBackup(p, false), [WriteLive(p, false)], t);
    TakesOne(format, s, ReadBackup(p, false), [WriteBackup(p, false)] + [WriteLive(p, false)], t);
    assert [ReadBackup(p, false)] + ([WriteBackup(p, false)] + [WriteLive(p, false)])
           == [ReadBackup(p, false), WriteBackup(p, false), WriteLive(p, false)];
  }

  const FINE := Faults(false, false, false, false, false, false)

  /** An edit that nothing disturbs is written, from its staging on: the live file is the draft
      reconciled with what it replaces, which is the backup. */
  lemma AnUndisturbedEditIsWritten(format: Format, s: State, p: Pid, edited: Bytes) returns (es: seq<Event>, t: State)
    requires p !in s.sessions && s.lock == None && Legible(s.live, false) && Legible(Some(edited), false)
    requires Saves(s.backup, FINE) && format.accepts(edited) && format.reconcile(s.live.value, edited).Some?
    ensures Takes(format, s, es, t)
    ensures var output := format.reconcile(s.live.value, edited);
            Ends(s, t, p, output, s.live, Written(s.live.value, output.value, true))
  {
    var live, output := s.live.value, format.reconcile(s.live.value, edited).value;
    var s1 := Apply(format, s, Stage(p, false));
    var s2 := Apply(format, s1, Finish(p, edited, false));
    var s3 := Apply(format, s2, Acquire(p));
    var s4 := Apply(format, s3, Compare(p, false));
    t := SavedWrite(format, s4, p, live, live, output);
    es := [ReadBackup(p, false), WriteBackup(p, false), WriteLive(p, false)];
    TakesOne(format, s3, Compare(p, false), es, t);
    es := [Compare(p, false)] + es;
    TakesOne(format, s2, Acquire(p), es, t);
    es := [Acquire(p)] + es;
    TakesOne(format, s1, Finish(p, edited, false), es, t);
    es := [Finish(p, edited, false)] + es;
    TakesOne(format, s, Stage(p, false), es, t);
    es := [Stage(p, false)] + es;
  }

  /** So is a transaction, which keeps the backup as it is if it was asked for none. */
  lemma AnUndisturbedTransactionIsWritten(format: Format, s: State, p: Pid, change: Bytes -> Option<Bytes>,
                                          backed: bool)
    returns (es: seq<Event>, t: State)
    requires p !in s.sessions && s.lock == None && Legible(s.live, false)
    requires Saves(s.backup, FINE) && change(s.live.value).Some?
    ensures Takes(format, s, es, t)
    ensures var output := change(s.live.value);
            Ends(s, t, p, output, if backed then s.live else s.backup, Written(s.live.value, output.value, backed))
  {
    var live, output := s.live.value, change(s.live.value).value;
    var s1 := Apply(format, s, Begin(p));
    var s2 := Apply(format, s1, Open(p, change, backed, false));
    if backed {
      var s3 := Apply(format, s2, Reread(p, false));
      t := SavedWrite(format, s3, p, live, live, output);
      es := [ReadBackup(p, false), WriteBackup(p, false), WriteLive(p, false)];
      TakesOne(format, s2, Reread(p, false), es, t);
      es := [Reread(p, false)] + es;
    } else {
      t := Apply(format, s2, WriteLive(p, false));
      TakesOne(format, s2, WriteLive(p, false), [], t);
      es := [WriteLive(p, false)];
    }
    TakesOne(format, s1, Open(p, change, backed, false), es, t);
    es := [Open(p, change, backed, false)] + es;
    TakesOne(format, s, Begin(p), es, t);
    es := [Begin(p)] + es;
  }

  /** What an edit session has in hand was read whole and, once it may ask for the lock, is a draft
      that the format accepts. */
  predicate Vetted(format: Format, phase: Phase) {
    match phase
    case Staged(original) => |original| <= 1_048_576
    case Validated(original, edited) =>
      |original| <= 1_048_576 && |edited| <= 1_048_576 && format.accepts(edited)
    case Comparing(original, edited) =>
      |original| <= 1_048_576 && |edited| <= 1_048_576 && format.accepts(edited)
    case _ => true
  }

  ghost predicate AllVetted(format: Format, s: State) {
    forall p :: p in s.sessions ==> Vetted(format, s.sessions[p])
  }

  lemma VettedStep(format: Format, s: State, e: Event)
    requires AllVetted(format, s) && Enabled(s, e)
    ensures AllVetted(format, Apply(format, s, e))
  {
  }

  /** In every run: only a draft of at most one MiB that the format accepts, made of a file of at
      most one MiB, ever gets to the lock; any other ends its session. */
  lemma {:induction false} DraftsAreVetted(format: Format, live: File, backup: File, es: seq<Event>)
    requires Final(format, Start(live, backup), es).Some?
    ensures AllVetted(format, Final(format, Start(live, backup), es).value)
    decreases |es|
  {
    if es != [] {
      var front := es[..|es| - 1];
      DraftsAreVetted(format, live, backup, front);
      VettedStep(format, Final(format, Start(live, backup), front).value, es[|es| - 1]);
    }
  }

  /** While anyone holds the lock, everyone else who asks for it is turned away at once. */
  lemma TheLockIsExclusive(format: Format, s: State, p: Pid, e: Event)
    requires Enabled(s, e) && s.lock.Some? && (e == Acquire(p) || e == Begin(p))
    ensures var t := Apply(format, s, e);
            t.live == s.live && t.backup == s.backup && t.lock == s.lock && t.ledger == s.ledger
            && p in t.sessions && t.sessions[p] == Over
  {
  }
}
