/**
  When the self-updater's revert is exact: the condition an operator can check before the run,
  proved necessary and sufficient, and the one fault of a step it cannot survive.
 */
module UpdateRevert {
  import opened Base
  import opened UpdateProtocol
  import opened UpdateSafety

  /** A backup directory left by an earlier run of the same version holds only what the live files still hold. */
  ghost predicate PriorBackupAgrees(p: Plan, d0: Disk) {
    forall n: string | Live(n) in d0.files && Saved(p.current, n) in d0.files ::
      d0.files[Saved(p.current, n)] == d0.files[Live(n)]
  }

  /** No backup copy was cut short. */
  ghost predicate WholeSaves(trace: seq<Event>) {
    forall e | e in trace && e.LiveSaved? :: !e.copy.Cut?
  }

  lemma {:induction false} SavesAgree(p: Plan, d0: Disk, trace: seq<Event>, n: string)
    requires PriorBackupAgrees(p, d0) && WholeSaves(trace) && Live(n) in d0.files
    ensures BackupAgrees(p, d0, trace, n)
  {
    if trace != [] {
      var before := trace[..|trace| - 1];
      assert forall e | e in before :: e in trace;
      SavesAgree(p, d0, before, n);
      assert trace[|trace| - 1] in trace;
    }
  }

  /** Every original live file is in place, or its original content is in the backup directory. */
  ghost predicate FilesKept(p: Plan, d0: Disk, d: Disk) {
    forall n: string | Live(n) in d0.files ::
      (Live(n) in d.files && d.files[Live(n)] == d0.files[Live(n)]) || Kept(p, d0, d, n)
  }

  /**
    What the operator is sent to after a restore that failed: .env.backup holds the old .env, and
    where the backup directory agreed and no backup copy was cut short every original file is still
    in place or in the backup directory.
   */
  lemma StuckIsRecoverable(p: Plan, d0: Disk, trace: seq<Event>)
    requires Follow(p, d0, trace).Some? && Distinct(p.infra) && Follow(p, d0, trace).value.phase == Over(Stuck)
    ensures EnvKept(p, d0, Follow(p, d0, trace).value.disk)
    ensures PriorBackupAgrees(p, d0) && WholeSaves(trace) ==> FilesKept(p, d0, Follow(p, d0, trace).value.disk)
  {
    hide Follow;
    TraceKeeps(p, d0, trace);
    TraceSaves(p, d0, trace);
    var d := Follow(p, d0, trace).value.disk;
    if PriorBackupAgrees(p, d0) && WholeSaves(trace) {
      forall n: string | Live(n) in d0.files && !(Live(n) in d.files && d.files[Live(n)] == d0.files[Live(n)])
        ensures Kept(p, d0, d, n)
      {
        SavesAgree(p, d0, trace, n);
      }
    }
  }

  // ----- The backup copies of a trace -----

  /** The events that copied a live file to the backup directory, in order. */
  function SavesOf(trace: seq<Event>): seq<Event> {
    if trace == [] then []
    else SavesOf(trace[..|trace| - 1]) + if trace[|trace| - 1].LiveSaved? then [trace[|trace| - 1]] else []
  }

  lemma SavesOfStep(trace: seq<Event>, e: Event)
    ensures SavesOf(trace + [e]) == SavesOf(trace) + if e.LiveSaved? then [e] else []
  {
    assert (trace + [e])[..|trace|] == trace;
  }

  lemma {:induction false} SavesAreAll(trace: seq<Event>, e: Event)
    requires e in trace && e.LiveSaved?
    ensures e in SavesOf(trace)
  {
    if e != trace[|trace| - 1] {
      SavesAreAll(trace[..|trace| - 1], e);
    }
  }

  /** What the backup directory holds for a name depends on the trace through its backup copies alone. */
  lemma {:induction false} CopyBySaves(p: Plan, d0: Disk, trace: seq<Event>, n: string)
    ensures SavesOf(trace) == [] ==>
      SavedCopy(p, d0, trace, n) == if Saved(p.current, n) in d0.files then Some(d0.files[Saved(p.current, n)])
          else None
    ensures |SavesOf(trace)| == 1 && SavesOf(trace)[0].LiveSaved? && SavesOf(trace)[0].name == n
            && !SavesOf(trace)[0].copy.Untouched? && Live(n) in d0.files ==>
      SavedCopy(p, d0, trace, n) == Some(Copied(d0.files[Live(n)], SavesOf(trace)[0].copy))
  {
    if trace != [] {
      CopyBySaves(p, d0, trace[..|trace| - 1], n);
    }
  }

  /** Nothing has been copied to the backup directory before the first file's turn. */
  lemma {:induction false} NoSavesYet(p: Plan, d0: Disk, trace: seq<Event>)
    requires Follow(p, d0, trace).Some?
    requires NotYetSaving(Follow(p, d0, trace).value.phase)
    ensures SavesOf(trace) == []
  {
    if trace != [] {
      var s := Follow(p, d0, trace[..|trace| - 1]).value;
      BeforeSaving(p, s.disk, s.phase, trace[|trace| - 1]);
      hide Next, Effect;
      NoSavesYet(p, d0, trace[..|trace| - 1]);
    }
  }

  predicate NotYetSaving(ph: Phase) {
    ph.Begin? || ph.Fetching? || ph.Asking? || ph.Cleared? || ph.Armed? || ph.Pinned? || ph == Saving(0)
  }

  lemma BeforeSaving(p: Plan, d: Disk, ph: Phase, e: Event)
    requires Next(p, d, ph, e).Some? && NotYetSaving(Next(p, d, ph, e).value)
    ensures NotYetSaving(ph) && !e.LiveSaved?
  {
  }

  lemma PutBackIsInexact(p: Plan, d0: Disk, trace: seq<Event>, n: string)
    requires Follow(p, d0, trace).Some? && Distinct(p.infra) && PutBack(trace)
    requires Follow(p, d0, trace).value.phase == Over(Restored)
    requires Live(n) in d0.files && SavedCopy(p, d0, trace, n).Some? &&
             SavedCopy(p, d0, trace, n).value != d0.files[Live(n)]
    ensures !Exact(d0, Follow(p, d0, trace).value.disk)
  {
    assert !BackupAgrees(p, d0, trace, n);
    RevertExactIff(p, d0, trace);
  }

  lemma AgreeingBackupSuffices(p: Plan, d0: Disk, trace: seq<Event>)
    requires Follow(p, d0, trace).Some? && Follow(p, d0, trace).value.phase == Over(Restored)
    requires Distinct(p.infra) && PriorBackupAgrees(p, d0) && WholeSaves(trace)
    ensures Exact(d0, Follow(p, d0, trace).value.disk)
  {
    forall n: string | Live(n) in d0.files ensures BackupAgrees(p, d0, trace, n) {
      SavesAgree(p, d0, trace, n);
    }
    RevertExactIff(p, d0, trace);
  }

  // ----- What a restore leaves that was not there -----

  /** The trace has put something of a shipped file in its place. */
  ghost predicate Placed(trace: seq<Event>, n: string) {
    exists e :: e in trace && Places(e, n)
  }

  predicate Places(e: Event, n: string) { e.LiveSwapped? && e.name == n && !e.copy.Untouched? }

  /** Restoring writes a file back for this name, or leaves one, where the run found none. */
  ghost predicate Strays(p: Plan, d0: Disk, trace: seq<Event>, n: string) {
    Saved(p.current, n) in d0.files || Placed(trace, n)
  }

  lemma PlacedStep(trace: seq<Event>, e: Event, n: string)
    ensures Placed(trace + [e], n) <==> Placed(trace, n) || Places(e, n)
  {
    if Placed(trace + [e], n) && !Places(e, n) {
      var x :| x in trace + [e] && Places(x, n);
      assert x in trace;
    }
    if Placed(trace, n) {
      var x :| x in trace && Places(x, n);
      assert x in trace + [e];
    }
    assert e in trace + [e];
  }

  lemma EffectPlaces(p: Plan, s: State, e: Event, n: string)
    requires Step(p, s, e).Some? && !e.LiveRestored?
    ensures Live(n) in Step(p, s, e).value.disk.files <==> Live(n) in s.disk.files || Places(e, n)
  {
  }

  /** Until a restore copies back, the live files there are the ones found and the ones placed. */
  lemma {:induction false} LiveIfPlaced(p: Plan, d0: Disk, trace: seq<Event>, n: string)
    requires Follow(p, d0, trace).Some? && forall e | e in trace :: !e.LiveRestored?
    ensures Live(n) in Follow(p, d0, trace).value.disk.files <==> Live(n) in d0.files || Placed(trace, n)
  {
    if trace != [] {
      var before, e := trace[..|trace| - 1], trace[|trace| - 1];
      assert trace == before + [e] && e in trace && forall x | x in before :: x in trace;
      LiveIfPlaced(p, d0, before, n);
      PlacedStep(before, e, n);
      EffectPlaces(p, Follow(p, d0, before).value, e, n);
    }
  }

  /** Of a name without a live file the backup directory holds what it held before, if anything. */
  lemma {:induction false} NoCopyOfNothing(p: Plan, d0: Disk, trace: seq<Event>, n: string)
    requires Live(n) !in d0.files
    ensures SavedCopy(p, d0, trace, n).Some? <==> Saved(p.current, n) in d0.files
  {
    if trace != [] {
      NoCopyOfNothing(p, d0, trace[..|trace| - 1], n);
    }
  }

  lemma StrayNow(p: Plan, d0: Disk, before: seq<Event>, s: State, e: Event, n: string)
    requires Follow(p, d0, before) == Some(s) && Distinct(p.infra) && !e.StageDropped?
    requires Next(p, s.disk, s.phase, e) == Some(Over(Restored)) && Live(n) !in d0.files
    ensures Live(n) in Effect(p, s.disk, e).files <==> PutBack(before + [e]) && Strays(p, d0, before + [e], n)
  {
    hide Follow, SavedCopy, Fetches, Consented, Placed;
    TraceKeeps(p, d0, before);
    TraceSeen(p, d0, before);
    if e.LiveRestored? {
      assert e in before + [e];
      LiveIfPlaced(p, d0, before, n);
      PlacedStep(before, e, n);
      TraceSaves(p, d0, before);
      NoCopyOfNothing(p, d0, before, n);
    } else {
      assert SameAt(d0, s.disk, Live(n));
    }
  }

  /** Which files stand after a successful restore where the run found none. */
  lemma {:induction false} StraysLeft(p: Plan, d0: Disk, trace: seq<Event>, n: string)
    requires Follow(p, d0, trace).Some? && Distinct(p.infra)
    requires Follow(p, d0, trace).value.phase == Over(Restored) && Live(n) !in d0.files
    ensures Live(n) in Follow(p, d0, trace).value.disk.files <==> PutBack(trace) && Strays(p, d0, trace, n)
  {
    var before, e := trace[..|trace| - 1], trace[|trace| - 1];
    assert trace == before + [e];
    var s := Follow(p, d0, before).value;
    if e.StageDropped? {
      StraysLeft(p, d0, before, n);
      PlacedStep(before, e, n);
      assert PutBack(trace) <==> PutBack(before);
    } else {
      StrayNow(p, d0, before, s, e, n);
    }
  }

  /**
    A restore that reports success, and that nothing has changed, is right about the whole install
    exactly when the copies it wrote back, if it wrote any, were the originals and there was nothing
    to write back or to leave where the run found no file.
   */
  lemma RestoredInstallIff(p: Plan, d0: Disk, trace: seq<Event>)
    requires Follow(p, d0, trace).Some? && Distinct(p.infra)
    requires Follow(p, d0, trace).value.phase == Over(Restored)
    ensures SameInstall(d0, Follow(p, d0, trace).value.disk)
            <==> (PutBack(trace) ==> forall n: string ::
                    if Live(n) in d0.files then BackupAgrees(p, d0, trace, n) else !Strays(p, d0, trace, n))
  {
    hide Follow, BackupAgrees, Strays;
    RevertExactIff(p, d0, trace);
    var d := Follow(p, d0, trace).value.disk;
    forall n: string | Live(n) !in d0.files
      ensures SameAt(d0, d, Live(n)) <==> !(PutBack(trace) && Strays(p, d0, trace, n))
    {
      StraysLeft(p, d0, trace, n);
    }
    assert SameInstall(d0, d) <==> Exact(d0, d) && forall n: string | Live(n) !in d0.files :: SameAt(d0, d, Live(n));
  }

  /** The run ships no file that the install lacks, and no older backup directory holds one. */
  ghost predicate NothingNew(p: Plan, d0: Disk) {
    forall n: string | Live(n) !in d0.files :: Saved(p.current, n) !in d0.files && n !in p.infra
  }

  lemma {:induction false} OnlyInfraPlaced(p: Plan, d0: Disk, trace: seq<Event>, n: string)
    requires Follow(p, d0, trace).Some? && Placed(trace, n)
    ensures n in p.infra
  {
    var before, e := trace[..|trace| - 1], trace[|trace| - 1];
    assert trace == before + [e];
    PlacedStep(before, e, n);
    if !Places(e, n) {
      OnlyInfraPlaced(p, d0, before, n);
    }
  }

  /** What can be checked before the run, for a restore to be right about the whole install. */
  lemma NothingNewSuffices(p: Plan, d0: Disk, trace: seq<Event>)
    requires Follow(p, d0, trace).Some? && Follow(p, d0, trace).value.phase == Over(Restored)
    requires Distinct(p.infra) && PriorBackupAgrees(p, d0) && WholeSaves(trace) && NothingNew(p, d0)
    ensures SameInstall(d0, Follow(p, d0, trace).value.disk)
  {
    hide Follow;
    forall n: string
      ensures if Live(n) in d0.files then BackupAgrees(p, d0, trace, n) else !Strays(p, d0, trace, n)
    {
      if Live(n) in d0.files {
        SavesAgree(p, d0, trace, n);
      } else if Placed(trace, n) {
        OnlyInfraPlaced(p, d0, trace, n);
        assert false;
      }
    }
    RestoredInstallIff(p, d0, trace);
  }
}
