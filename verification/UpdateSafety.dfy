/**
  What every run of the self-updater keeps, over all traces of UpdateProtocol: nothing is touched
  before everything is staged and a backup exists or was waived, the revert and `up -d` exclude
  each other, a restored install is the old one, an updated install is the new one.
 */
module UpdateSafety {
  import opened Base
  import opened UpdateProtocol
  import EnvPin
  import RollbackHint

  // ----- The install: .env and the live files -----

  ghost predicate SameAt(a: Disk, b: Disk, q: Path) {
    (q in a.files <==> q in b.files) && (q in a.files ==> a.files[q] == b.files[q])
  }

  ghost predicate SameLive(a: Disk, b: Disk) {
    forall n: string :: SameAt(a, b, Live(n))
  }

  ghost predicate SameInstall(a: Disk, b: Disk) { SameAt(a, b, Env) && SameLive(a, b) }

  ghost predicate Distinct(names: seq<string>) {
    forall i, j | 0 <= i < j < |names| :: names[i] != names[j]
  }

  /** The backup of a live file that the run has taken: it holds the file's original content. */
  ghost predicate Kept(p: Plan, d0: Disk, d: Disk, n: string) {
    Live(n) in d0.files ==> Saved(p.current, n) in d.files && d.files[Saved(p.current, n)] == d0.files[Live(n)]
  }

  ghost predicate Shipped(p: Plan, d: Disk, n: string) {
    n in p.release && Live(n) in d.files && d.files[Live(n)] == p.release[n]
  }

  ghost predicate StagedUpTo(p: Plan, d: Disk, k: nat) {
    k <= |p.infra| &&
    forall i | 0 <= i < k :: p.infra[i] in p.release && Staged(p.infra[i]) in d.files &&
                             d.files[Staged(p.infra[i])] == p.release[p.infra[i]]
  }

  ghost predicate EnvKept(p: Plan, d0: Disk, d: Disk) {
    Env in d0.files && EnvBackup(p.current) in d.files && d.files[EnvBackup(p.current)] == d0.files[Env]
  }

  ghost predicate EnvMoved(p: Plan, d0: Disk, d: Disk) {
    Env in d0.files && Env in d.files && d.files[Env] == EnvPin.Repin(d0.files[Env], p.image)
  }

  /** The first k infra files are swapped, the others and every file that is no infra file are as they were. */
  ghost predicate SwappedUpTo(p: Plan, d0: Disk, d: Disk, k: nat) {
    && k <= |p.infra|
    && EnvKept(p, d0, d) && EnvMoved(p, d0, d)
    && (forall i | 0 <= i < k :: Shipped(p, d, p.infra[i]) && Kept(p, d0, d, p.infra[i]))
    && (forall n: string | n !in p.infra[..k] :: SameAt(d0, d, Live(n)))
  }

  /** Every original file is either still in place or in the backup directory. */
  ghost predicate Recoverable(p: Plan, d0: Disk, d: Disk) {
    && EnvKept(p, d0, d)
    && (forall n: string | Live(n) in d0.files ::
          Live(n) in d.files && (d.files[Live(n)] == d0.files[Live(n)] || Kept(p, d0, d, n)))
    && (p.current !in d.backupDirs ==> SameLive(d0, d))
  }

  /** Every original live file is in place, or something stands for it in the backup directory. */
  ghost predicate NothingLost(p: Plan, d0: Disk, d: Disk) {
    forall n: string | Live(n) in d0.files ::
      (Live(n) in d.files && d.files[Live(n)] == d0.files[Live(n)]) || Saved(p.current, n) in d.files
  }

  ghost predicate Inv(p: Plan, d0: Disk, s: State) {
    var d := s.disk;
    match s.phase
    case Begin => SameInstall(d0, d)
    case Fetching(k) => SameInstall(d0, d) && StagedUpTo(p, d, k)
    case Asking => SameInstall(d0, d) && StagedUpTo(p, d, |p.infra|)
    case Cleared => SameInstall(d0, d) && StagedUpTo(p, d, |p.infra|)
    case Armed => SameInstall(d0, d) && StagedUpTo(p, d, |p.infra|) && EnvKept(p, d0, d)
    case Pinned => SwappedUpTo(p, d0, d, 0) && StagedUpTo(p, d, |p.infra|)
    case Saving(k) => SwappedUpTo(p, d0, d, k) && StagedUpTo(p, d, |p.infra|) && p.current in d.backupDirs
    case Swapping(k) =>
      && k < |p.infra| && SwappedUpTo(p, d0, d, k) && Kept(p, d0, d, p.infra[k])
      && StagedUpTo(p, d, |p.infra|) && p.current in d.backupDirs
    case Open => SwappedUpTo(p, d0, d, |p.infra|)
    case Started => SwappedUpTo(p, d0, d, |p.infra|)
    case Ready => SwappedUpTo(p, d0, d, |p.infra|)
    case Reverting(named) => Recoverable(p, d0, d) && (!named ==> SameInstall(d0, d))
    case RevertingInfra => Recoverable(p, d0, d) && SameAt(d0, d, Env)
    case Over(ending) =>
      match ending
      case Refused => SameInstall(d0, d)
      case Restored => SameAt(d0, d, Env)
      case Stuck => EnvKept(p, d0, d) && NothingLost(p, d0, d)
      case Broken => SwappedUpTo(p, d0, d, |p.infra|)
      case Updated => SwappedUpTo(p, d0, d, |p.infra|)
  }

  /** Files of the staging directory and of backups are no part of the install. */
  lemma FailKeeps(p: Plan, d0: Disk, s: State)
    requires Inv(p, d0, s) && Running(s.phase)
    ensures Inv(p, d0, State(Failed(s.phase), s.disk))
  {
    if s.phase.InWindow() {
      assert Recoverable(p, d0, s.disk);
    }
  }

  lemma FetchKeeps(p: Plan, d0: Disk, s: State, e: Event)
    requires Inv(p, d0, s) && e.Fetched? && Step(p, s, e).Some? && Distinct(p.infra)
    ensures Inv(p, d0, Step(p, s, e).value)
  {
  }

  lemma EnvSaveKeeps(p: Plan, d0: Disk, s: State, e: Event)
    requires Inv(p, d0, s) && e.EnvSaved? && Step(p, s, e).Some?
    ensures Inv(p, d0, Step(p, s, e).value)
  {
    hide Recoverable, SwappedUpTo, NothingLost;
  }

  lemma PinKeeps(p: Plan, d0: Disk, s: State, e: Event)
    requires Inv(p, d0, s) && e.PinMoved? && Step(p, s, e).Some?
    ensures Inv(p, d0, Step(p, s, e).value)
  {
    hide NothingLost, EnvPin.Repin;
    var d' := Effect(p, s.disk, e);
    assert SameLive(d0, d') && EnvKept(p, d0, d') && StagedUpTo(p, d', |p.infra|);
    if e.write.PinIn? {
      hide SameLive, StagedUpTo, EnvKept;
      assert p.infra[..0] == [];
    }
  }

  lemma BackupDirKeeps(p: Plan, d0: Disk, s: State, e: Event)
    requires Inv(p, d0, s) && e.BackupDirMade? && Step(p, s, e).Some?
    ensures Inv(p, d0, Step(p, s, e).value)
  {
    hide NothingLost;
  }

  /** A copy to the backup directory of a file whose turn it is touches nothing that has been done. */
  lemma SaveTouchesLittle(p: Plan, d0: Disk, d: Disk, d': Disk, k: nat)
    requires SwappedUpTo(p, d0, d, k) && StagedUpTo(p, d, |p.infra|) && k < |p.infra| && Distinct(p.infra)
    requires forall q: Path | q != Saved(p.current, p.infra[k]) :: SameAt(d, d', q)
    ensures SwappedUpTo(p, d0, d', k) && StagedUpTo(p, d', |p.infra|)
  {
    assert SameAt(d, d', Env) && SameAt(d, d', EnvBackup(p.current));
    assert forall n: string :: SameAt(d, d', Live(n)) && SameAt(d, d', Staged(n));
    assert forall i | 0 <= i < k :: SameAt(d, d', Saved(p.current, p.infra[i]));
  }

  /** Its original is then in the directory when the copy was whole, and in place in any case. */
  lemma SaveKeeps(p: Plan, d0: Disk, s: State, e: Event)
    requires Inv(p, d0, s) && (e.LiveSaved? || e.LiveAbsent?) && Step(p, s, e).Some? && Distinct(p.infra)
    ensures Inv(p, d0, Step(p, s, e).value)
  {
    var k, d' := s.phase.done, Effect(p, s.disk, e);
    assert p.infra[k] !in p.infra[..k];
    assert SameAt(d0, s.disk, Live(p.infra[k]));
    SaveTouchesLittle(p, d0, s.disk, d', k);
    hide StagedUpTo, EnvMoved, Shipped;
  }

  lemma SwapKeeps(p: Plan, d0: Disk, s: State, e: Event)
    requires Inv(p, d0, s) && e.LiveSwapped? && Step(p, s, e).Some? && Distinct(p.infra)
    ensures Inv(p, d0, Step(p, s, e).value)
  {
    hide NothingLost, EnvPin.Repin;
    assert EnvKept(p, d0, Effect(p, s.disk, e)) && StagedUpTo(p, Effect(p, s.disk, e), |p.infra|);
    hide EnvKept, StagedUpTo;
  }

  lemma EnvRestoreKeeps(p: Plan, d0: Disk, s: State, e: Event)
    requires Inv(p, d0, s) && e.EnvRestored? && Step(p, s, e).Some?
    ensures Inv(p, d0, Step(p, s, e).value)
  {
  }

  lemma LiveRestoreKeeps(p: Plan, d0: Disk, s: State, e: Event)
    requires Inv(p, d0, s) && e.LiveRestored? && Step(p, s, e).Some?
    ensures Inv(p, d0, Step(p, s, e).value)
  {
  }

  /** What the invariants of a run that is no longer running say of a disk is the same without the staged files. */
  lemma UnstagedSame(p: Plan, d0: Disk, d: Disk, d': Disk)
    requires d' == d.(files := Unstaged(d.files))
    ensures SameInstall(d0, d) ==> SameInstall(d0, d')
    ensures SameAt(d0, d, Env) ==> SameAt(d0, d', Env)
    ensures EnvKept(p, d0, d) ==> EnvKept(p, d0, d')
    ensures NothingLost(p, d0, d) ==> NothingLost(p, d0, d')
    ensures Recoverable(p, d0, d) ==> Recoverable(p, d0, d')
    ensures SwappedUpTo(p, d0, d, |p.infra|) ==> SwappedUpTo(p, d0, d', |p.infra|)
  {
  }

  lemma UnstageKeeps(p: Plan, d0: Disk, s: State, e: Event)
    requires Inv(p, d0, s) && e.StageDropped? && Step(p, s, e).Some?
    ensures Inv(p, d0, Step(p, s, e).value)
  {
    hide SameAt, SameInstall, EnvKept, NothingLost, Recoverable, SwappedUpTo, Unstaged;
    UnstagedSame(p, d0, s.disk, s.disk.(files := Unstaged(s.disk.files)));
  }

  lemma StepKeeps(p: Plan, d0: Disk, s: State, e: Event)
    requires Inv(p, d0, s) && Step(p, s, e).Some? && Distinct(p.infra)
    ensures Inv(p, d0, Step(p, s, e).value)
  {
    hide SameAt, SameInstall, EnvKept, NothingLost, Recoverable, SwappedUpTo;
    match e {
      case Fetched(_, _) => FetchKeeps(p, d0, s, e);
      case EnvSaved(_) => EnvSaveKeeps(p, d0, s, e);
      case PinMoved(_) => PinKeeps(p, d0, s, e);
      case BackupDirMade(_) => BackupDirKeeps(p, d0, s, e);
      case LiveSaved(_, _) => SaveKeeps(p, d0, s, e);
      case LiveAbsent(_) => SaveKeeps(p, d0, s, e);
      case LiveSwapped(_, _) => SwapKeeps(p, d0, s, e);
      case EnvRestored(_) => EnvRestoreKeeps(p, d0, s, e);
      case LiveRestored(_) => LiveRestoreKeeps(p, d0, s, e);
      case StageDropped(_) => UnstageKeeps(p, d0, s, e);
      case Chore(_, ok) => if !ok { FailKeeps(p, d0, s); }
      case _ =>
    }
  }

  /** The invariant holds after every trace. */
  lemma {:induction false} TraceKeeps(p: Plan, d0: Disk, trace: seq<Event>)
    requires Follow(p, d0, trace).Some? && Distinct(p.infra)
    ensures Inv(p, d0, Follow(p, d0, trace).value)
  {
    if trace != [] {
      TraceKeeps(p, d0, trace[..|trace| - 1]);
      StepKeeps(p, d0, Follow(p, d0, trace[..|trace| - 1]).value, trace[|trace| - 1]);
    }
  }

  // ----- What a trace has seen, by phase -----

  predicate PastStaging(ph: Phase) {
    !ph.Begin? && !ph.Fetching? && ph != Over(Refused)
  }

  predicate PastConsent(ph: Phase) { PastStaging(ph) && !ph.Asking? }

  ghost predicate Fetches(p: Plan, trace: seq<Event>, k: nat) {
    k <= |p.infra| && forall i | 0 <= i < k :: Fetched(p.infra[i], Whole) in trace
  }

  /** A backup was taken, or the question was answered yes; in a run of Updater only a y or Y typed on a terminal is. */
  ghost predicate Consented(trace: seq<Event>) {
    BackupTaken(true) in trace || BackupTaken(false) in trace || Answered(true) in trace
  }

  ghost predicate Reverts(e: Event) { e.EnvRestored? || e.LiveRestored? }

  ghost predicate Seen(p: Plan, trace: seq<Event>, ph: Phase) {
    && (ph.Fetching? ==> Fetches(p, trace, ph.done))
    && (PastStaging(ph) ==> Fetches(p, trace, |p.infra|))
    && (PastConsent(ph) ==> Consented(trace))
    && (forall e | e in trace && e.Up? :: ph.Started? || ph.Ready? || ph == Over(Broken) || ph == Over(Updated))
    && (forall e | e in trace && e.EnvRestored? :: ph.RevertingInfra? || ph == Over(Restored) || ph == Over(Stuck))
    && (forall e | e in trace && e.LiveRestored? :: ph == Over(Restored) || ph == Over(Stuck))
  }

  lemma SeenStep(p: Plan, d: Disk, before: seq<Event>, ph: Phase, e: Event)
    requires Seen(p, before, ph) && Next(p, d, ph, e).Some?
    ensures Seen(p, before + [e], Next(p, d, ph, e).value)
  {
    hide Fetches;
    var trace, after := before + [e], Next(p, d, ph, e).value;
    assert forall x :: x in trace <==> x in before || x == e;
    FetchesStep(p, d, before, ph, e);
    if PastConsent(after) && !PastConsent(ph) {
      assert e in trace;
    }
  }

  lemma FetchesStep(p: Plan, d: Disk, before: seq<Event>, ph: Phase, e: Event)
    requires Next(p, d, ph, e).Some?
    requires (ph.Fetching? ==> Fetches(p, before, ph.done)) && (PastStaging(ph) ==> Fetches(p, before, |p.infra|))
    ensures var after, trace := Next(p, d, ph, e).value, before + [e];
            (after.Fetching? ==> Fetches(p, trace, after.done)) && (PastStaging(after) ==> Fetches(p, trace, |p.infra|))
  {
  }

  lemma {:induction false} TraceSeen(p: Plan, d0: Disk, trace: seq<Event>)
    requires Follow(p, d0, trace).Some?
    ensures Seen(p, trace, Follow(p, d0, trace).value.phase)
  {
    if trace != [] {
      var before := trace[..|trace| - 1];
      TraceSeen(p, d0, before);
      var s := Follow(p, d0, before).value;
      SeenStep(p, s.disk, before, s.phase, trace[|trace| - 1]);
      assert trace == before + [trace[|trace| - 1]];
    }
  }

  // ----- Phase safety -----

  /** Only these events change .env or a live file. */
  lemma OnlyInstallEventsAlter(p: Plan, d: Disk, e: Event)
    requires !SameInstall(d, Effect(p, d, e))
    ensures e.PinMoved? || e.LiveSwapped? || Reverts(e)
  {
  }

  /**
    Nothing of the install changes before every infra file has been fetched and a backup was taken
    or waived: whatever event alters .env or a live file, all of that lies before it in the trace.
   */
  lemma NothingChangesBeforeConsent(p: Plan, d0: Disk, trace: seq<Event>, i: nat)
    requires Follow(p, d0, trace).Some? && i < |trace|
    ensures Follow(p, d0, trace[..i]).Some?
    ensures var d := Follow(p, d0, trace[..i]).value.disk;
            !SameInstall(d, Effect(p, d, trace[i])) ==> Fetches(p, trace[..i], |p.infra|) && Consented(trace[..i])
  {
    hide Fetches, Consented, SameInstall, Effect;
    FollowPrefix(p, d0, trace, i);
    FollowPrefix(p, d0, trace, i + 1);
    assert trace[..i + 1] == trace[..i] + [trace[i]];
    FollowStep(p, d0, trace[..i], trace[i]);
    var s := Follow(p, d0, trace[..i]).value;
    TraceSeen(p, d0, trace[..i]);
    if !SameInstall(s.disk, Effect(p, s.disk, trace[i])) {
      OnlyInstallEventsAlter(p, s.disk, trace[i]);
    }
  }

  /**
    `docker compose up -d` and the revert never both occur in one run, in either order, and the revert
    occurs at most once.
   */
  lemma UpAndRevertExclude(p: Plan, d0: Disk, trace: seq<Event>)
    requires Follow(p, d0, trace).Some?
    ensures forall i, j | 0 <= i < |trace| && 0 <= j < |trace| :: !(trace[i].Up? && Reverts(trace[j]))
    ensures forall i, j | 0 <= i < j < |trace| :: !(trace[i].EnvRestored? && trace[j].EnvRestored?)
    ensures forall i, j | 0 <= i < j < |trace| :: !(trace[i].LiveRestored? && Reverts(trace[j]))
  {
    hide Follow, Next, Fetches, Consented;
    TraceSeen(p, d0, trace);
    forall i, j | 0 <= i < j < |trace| && Reverts(trace[i])
      ensures !trace[j].EnvRestored? && (trace[i].LiveRestored? ==> !Reverts(trace[j]))
    {
      RevertedOnce(p, d0, trace, i, j);
    }
  }

  lemma RevertedOnce(p: Plan, d0: Disk, trace: seq<Event>, i: nat, j: nat)
    requires Follow(p, d0, trace).Some? && i < j < |trace| && Reverts(trace[i])
    ensures !trace[j].EnvRestored? && (trace[i].LiveRestored? ==> !Reverts(trace[j]))
  {
    hide Follow, Fetches, Consented;
    FollowPrefix(p, d0, trace, j);
    FollowPrefix(p, d0, trace, j + 1);
    assert trace[..j + 1] == trace[..j] + [trace[j]];
    FollowStep(p, d0, trace[..j], trace[j]);
    TraceSeen(p, d0, trace[..j]);
    assert trace[i] == trace[..j][i];
  }

  /** A run that ends refused, and every run up to the moment the pin moves, has left .env and the live files alone. */
  lemma RefusedChangesNothing(p: Plan, d0: Disk, trace: seq<Event>)
    requires Follow(p, d0, trace).Some? && Distinct(p.infra)
    ensures var s := Follow(p, d0, trace).value;
            s.phase == Over(Refused) || s.phase == Armed || !PastConsent(s.phase) ==> SameInstall(d0, s.disk)
  {
    TraceKeeps(p, d0, trace);
  }

  /** Past the point of no return the install is the new one, whether the run then succeeds or breaks. */
  lemma CommittedInstallIsNew(p: Plan, d0: Disk, trace: seq<Event>)
    requires Follow(p, d0, trace).Some? && Distinct(p.infra)
    requires Committed in trace
    ensures var d := Follow(p, d0, trace).value.disk;
            && EnvMoved(p, d0, d)
            && (forall n | n in p.infra :: Shipped(p, d, n))
            && (forall n: string | n !in p.infra :: SameAt(d0, d, Live(n)))
  {
    TraceKeeps(p, d0, trace);
    CommittedPhase(p, d0, trace);
    assert p.infra[..|p.infra|] == p.infra;
  }

  predicate PastWindow(ph: Phase) {
    ph.Open? || ph.Started? || ph.Ready? || ph == Over(Broken) || ph == Over(Updated)
  }

  lemma CommittedStep(p: Plan, d: Disk, ph: Phase, e: Event)
    requires Next(p, d, ph, e).Some?
    ensures PastWindow(Next(p, d, ph, e).value) <==> PastWindow(ph) || e.Committed?
  {
  }

  lemma {:induction false} CommittedPhase(p: Plan, d0: Disk, trace: seq<Event>)
    requires Follow(p, d0, trace).Some?
    ensures Committed in trace <==> PastWindow(Follow(p, d0, trace).value.phase)
  {
    if trace != [] {
      var before, e := trace[..|trace| - 1], trace[|trace| - 1];
      CommittedPhase(p, d0, before);
      var s := Follow(p, d0, before).value;
      CommittedStep(p, s.disk, s.phase, e);
      assert trace == before + [e];
      assert Committed in trace <==> Committed in before || e == Committed;
    }
  }

  /**
    The printed rollback, run by hand on an updated or broken install: the `cp -a` of the backup
    directory puts back every live file that existed, and the sed line gives the old .env exactly
    when all its pin lines were one line, of which the shell and sed read every character as itself.
   */
  lemma RollbackHintWorks(p: Plan, d0: Disk, trace: seq<Event>)
    requires Follow(p, d0, trace).Some? && Distinct(p.infra) && Committed in trace
    requires Env in d0.files && EnvPin.HasPin(d0.files[Env]) && '\n' !in p.image
    ensures var back := CopyBack(Follow(p, d0, trace).value.disk.files, p.current);
            && (forall n | n in p.infra && Live(n) in d0.files :: Live(n) in back && back[Live(n)] == d0.files[Live(n)])
            && Env in back
            && var env := d0.files[Env];
               (RollbackHint.Hinted(back[Env], EnvPin.CurrentImage(env)) == Some(env)
                <==> EnvPin.OnePin(EnvPin.Lines(env)) && RollbackHint.Plain(EnvPin.CurrentImage(env)))
  {
    CommittedInstallIsNew(p, d0, trace);
    TraceKeeps(p, d0, trace);
    CommittedPhase(p, d0, trace);
    RollbackHint.RestoresEnvIff(d0.files[Env], p.image);
    forall n | n in p.infra && Live(n) in d0.files ensures Kept(p, d0, Follow(p, d0, trace).value.disk, n) {
      assert SwappedUpTo(p, d0, Follow(p, d0, trace).value.disk, |p.infra|);
    }
  }

  // ----- The revert -----

  /**
    What the backup directory holds for a name after a trace: the last copy that touched it, else what
    was there before.
   */
  function SavedCopy(p: Plan, d0: Disk, trace: seq<Event>, n: string): Option<string> {
    if trace == [] then
      if Saved(p.current, n) in d0.files then Some(d0.files[Saved(p.current, n)]) else None
    else
      var e := trace[|trace| - 1];
      if e.LiveSaved? && e.name == n && !e.copy.Untouched? && Live(n) in d0.files
      then Some(Copied(d0.files[Live(n)], e.copy))
      else SavedCopy(p, d0, trace[..|trace| - 1], n)
  }

  ghost predicate SavedAs(p: Plan, d0: Disk, trace: seq<Event>, d: Disk) {
    forall n: string ::
      (Saved(p.current, n) in d.files <==> SavedCopy(p, d0, trace, n).Some?) &&
      (Saved(p.current, n) in d.files ==> d.files[Saved(p.current, n)] == SavedCopy(p, d0, trace, n).value)
  }

  lemma SavedStep(p: Plan, d0: Disk, before: seq<Event>, s: State, e: Event)
    requires SavedAs(p, d0, before, s.disk) && Inv(p, d0, s) && Step(p, s, e).Some? && Distinct(p.infra)
    ensures SavedAs(p, d0, before + [e], Step(p, s, e).value.disk)
  {
    assert (before + [e])[..|before|] == before;
    if e.LiveSaved? {
      assert p.infra[s.phase.done] !in p.infra[..s.phase.done];
      assert SameAt(d0, s.disk, Live(e.name));
    }
  }

  lemma {:induction false} TraceSaves(p: Plan, d0: Disk, trace: seq<Event>)
    requires Follow(p, d0, trace).Some? && Distinct(p.infra)
    ensures SavedAs(p, d0, trace, Follow(p, d0, trace).value.disk)
  {
    if trace != [] {
      var before := trace[..|trace| - 1];
      TraceSaves(p, d0, before);
      TraceKeeps(p, d0, before);
      var s, e := Follow(p, d0, before).value, trace[|trace| - 1];
      assert before + [e] == trace;
      SavedStep(p, d0, before, s, e);
    }
  }

  ghost predicate PutBack(trace: seq<Event>) { LiveRestored(None) in trace }

  /** The live files after a restore that reported success, for every trace. */
  ghost predicate RestoredForm(p: Plan, d0: Disk, trace: seq<Event>, d: Disk) {
    forall n: string | Live(n) in d0.files ::
      Live(n) in d.files &&
      d.files[Live(n)] == if PutBack(trace) && SavedCopy(p, d0, trace, n).Some?
                          then SavedCopy(p, d0, trace, n).value else d0.files[Live(n)]
  }

  lemma RestoredByCopy(p: Plan, d0: Disk, trace: seq<Event>, d: Disk)
    requires Recoverable(p, d0, d) && SavedAs(p, d0, trace, d) && PutBack(trace)
    ensures RestoredForm(p, d0, trace, d.(files := CopyBack(d.files, p.current)))
  {
  }

  lemma RestoredUntouched(p: Plan, d0: Disk, trace: seq<Event>, d: Disk)
    requires SameLive(d0, d) && !PutBack(trace)
    ensures RestoredForm(p, d0, trace, d)
  {
  }

  /** An event that saves and puts back nothing leaves the form of a restored install alone. */
  lemma RestoredStays(p: Plan, d0: Disk, before: seq<Event>, e: Event, d: Disk, d': Disk)
    requires RestoredForm(p, d0, before, d) && e.StageDropped? && forall n: string :: SameAt(d, d', Live(n))
    ensures RestoredForm(p, d0, before + [e], d')
  {
    var trace := before + [e];
    assert PutBack(trace) <==> PutBack(before);
    forall n: string | Live(n) in d0.files
        ensures SavedCopy(p, d0, trace, n) == SavedCopy(p, d0, before, n) && SameAt(d, d', Live(n))
    {
      assert trace[..|trace| - 1] == before;
    }
  }

  lemma SavedAfter(p: Plan, d0: Disk, before: seq<Event>, e: Event, d: Disk)
    requires SavedAs(p, d0, before, d) && !e.LiveSaved?
    ensures SavedAs(p, d0, before + [e], d)
  {
    assert (before + [e])[..|before|] == before;
    forall n: string ensures SavedCopy(p, d0, before + [e], n) == SavedCopy(p, d0, before, n) {
    }
  }

  lemma {:induction false} RestoredHas(p: Plan, d0: Disk, trace: seq<Event>)
    requires Follow(p, d0, trace).Some? && Distinct(p.infra)
    requires Follow(p, d0, trace).value.phase == Over(Restored)
    ensures RestoredForm(p, d0, trace, Follow(p, d0, trace).value.disk)
  {
    var before, e := trace[..|trace| - 1], trace[|trace| - 1];
    assert trace == before + [e];
    var s := Follow(p, d0, before).value;
    var d' := Follow(p, d0, trace).value.disk;
    if e.StageDropped? {
      RestoredHas(p, d0, before);
      RestoredStays(p, d0, before, e, s.disk, d');
    } else {
      RestoredNow(p, d0, before, s, e);
    }
  }

  lemma RestoredNow(p: Plan, d0: Disk, before: seq<Event>, s: State, e: Event)
    requires Follow(p, d0, before) == Some(s) && Distinct(p.infra) && !e.StageDropped?
    requires Next(p, s.disk, s.phase, e) == Some(Over(Restored))
    ensures RestoredForm(p, d0, before + [e], Effect(p, s.disk, e))
  {
    hide Follow, RestoredForm, SavedAs, Fetches, Consented;
    TraceKeeps(p, d0, before);
    if e.EnvRestored? {
      TraceSeen(p, d0, before);
      RestoredUntouched(p, d0, before + [e], Effect(p, s.disk, e));
    } else {
      TraceSaves(p, d0, before);
      SavedAfter(p, d0, before, e, s.disk);
      RestoredByCopy(p, d0, before + [e], s.disk);
    }
  }

  /** The backup directory agrees with the original live file. */
  ghost predicate BackupAgrees(p: Plan, d0: Disk, trace: seq<Event>, n: string)
    requires Live(n) in d0.files
  {
    SavedCopy(p, d0, trace, n) == None || SavedCopy(p, d0, trace, n) == Some(d0.files[Live(n)])
  }

  ghost predicate Exact(d0: Disk, d: Disk) {
    SameAt(d0, d, Env) && forall n: string | Live(n) in d0.files :: SameAt(d0, d, Live(n))
  }

  /**
    A restore that reports success always gives .env back. It gives every live file that existed
    back exactly when the copies it wrote back, if it wrote any, were the originals.
   */
  lemma RevertExactIff(p: Plan, d0: Disk, trace: seq<Event>)
    requires Follow(p, d0, trace).Some? && Distinct(p.infra)
    requires Follow(p, d0, trace).value.phase == Over(Restored)
    ensures SameAt(d0, Follow(p, d0, trace).value.disk, Env)
    ensures Exact(d0, Follow(p, d0, trace).value.disk)
            <==> (PutBack(trace) ==> forall n: string | Live(n) in d0.files :: BackupAgrees(p, d0, trace, n))
  {
    TraceKeeps(p, d0, trace);
    RestoredHas(p, d0, trace);
  }
}
