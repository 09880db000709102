/**
  The self-updater as a protocol over a file system (apps/api/cmd/update/update.go, Run, onExit
  and restore). A run is a trace of events; an event says which step was taken and how far it
  got, because every step may fail and a copy may stop half-way. Next is the protocol, Effect is
  what an event does to the disk. UpdateSafety proves what every trace keeps and Updater is the
  program, which emits only events the protocol allows.
 */
module UpdateProtocol {
  import opened Base
  import EnvPin

  /** A path of the install, relative to the install directory, or a file of the staging directory. */
  datatype Path =
    | Env
    | EnvTmp
    | EnvBackup(version: string)
    | Live(name: string)
    | Saved(version: string, name: string)
    | Staged(name: string)

  /** Regular files by path, and the versions that have an infra backup directory. */
  datatype Disk = Disk(files: map<Path, string>, backupDirs: set<string>)

  /** What one run wants: the infra files in order, the versions, and the files the release ships. */
  datatype Plan = Plan(infra: seq<string>, current: string, image: string, release: map<string, string>)

  /** How far a copy got: all of it, not even a truncated destination, or cut short after some characters. */
  datatype Copy = Whole | Untouched | Cut(kept: nat)

  /** How far the pin's rewrite got; each but the first is a failure. */
  datatype PinWrite = PinIn | PinNot | TmpLeft(text: string)

  /** What is done besides copying: a failed task ends the run, unless it was only tried. */
  datatype Task =
    | MakeStage
    | MakeDir(room: Path)
    | RunBackup
    | AddExec(script: string)
    | MakeMount(dir: string)
    | AskUid | AskGid
    | Own(name: string)
    | OwnLock | LoosenLock
    | Touch(name: string)
    | Restrict(name: string)
    | PullProxy
    | ExtractHelper
    | Poll
    | DisableTimer | RemoveTimer | ReloadUnits

  datatype Event =
    | Pulled(ok: bool)
    | Fetched(name: string, copy: Copy)
    | BackupTaken(localOnly: bool)
    | BackupMissing
    | Answered(yes: bool)
    | EnvSaved(copy: Copy)
    | PinMoved(write: PinWrite)
    | BackupDirMade(ok: bool)
    | LiveSaved(name: string, copy: Copy)
    | LiveAbsent(name: string)
    | LiveSwapped(name: string, copy: Copy)
    | Committed
    | Up(ok: bool)
    | Healthy(ok: bool)
    | Finished
    | EnvRestored(copy: Copy)
    | LiveRestored(damage: Option<map<string, string>>)
    | StageDropped(ok: bool)
    | Chore(task: Task, ok: bool)
    | Tried(task: Task, ok: bool)

  datatype Ending = Refused | Restored | Stuck | Broken | Updated

  datatype Phase =
    | Begin
    | Fetching(done: nat)
    | Asking
    | Cleared
    | Armed
    | Pinned
    | Saving(done: nat)
    | Swapping(done: nat)
    | Open
    | Started
    | Ready
    | Reverting(named: bool)
    | RevertingInfra
    | Over(ending: Ending)
  {
    /** The stretch in which a failure is undone. */
    predicate InWindow() { Armed? || Pinned? || Saving? || Swapping? }
  }

  /** The phases in which the infra backup directory has been named. */
  predicate Named(ph: Phase) {
    ph.Pinned? || ph.Saving? || ph.Swapping? || ph.Open? || ph.Started? || ph.Ready? || ph.RevertingInfra? ||
        (ph.Reverting? && ph.named)
  }

  /** Where a failed step leads. */
  function Failed(ph: Phase): Phase {
    match ph
    case Armed => Reverting(false)
    case Pinned => Reverting(true)
    case Saving(_) => Reverting(true)
    case Swapping(_) => Reverting(true)
    case Open => Over(Broken)
    case Started => Over(Broken)
    case Ready => Over(Broken)
    case _ => Over(Refused)
  }

  predicate Running(ph: Phase) { !ph.Over? && !ph.Reverting? && !ph.RevertingInfra? }

  /** The phase after an event, or None when the protocol does not allow it there. */
  function Next(p: Plan, d: Disk, ph: Phase, e: Event): Option<Phase> {
    match e
    case Pulled(ok) =>
      if ph.Begin? then Some(if ok then Fetching(0) else Over(Refused)) else None
    case Fetched(name, copy) =>
      if ph.Fetching? && ph.done < |p.infra| && name == p.infra[ph.done] && (name in p.release || copy.Untouched?)
      then Some(if copy.Whole? then Fetching(ph.done + 1) else Over(Refused)) else None
    case BackupTaken(_) =>
      if ph == Fetching(|p.infra|) then Some(Cleared) else None
    case BackupMissing =>
      if ph == Fetching(|p.infra|) then Some(Asking) else None
    case Answered(yes) =>
      if ph.Asking? then Some(if yes then Cleared else Over(Refused)) else None
    case EnvSaved(copy) =>
      if ph.Cleared? && (Env in d.files || copy.Untouched?)
      then Some(if copy.Whole? then Armed else Over(Refused)) else None
    case PinMoved(write) =>
      if ph.Armed? && (Env in d.files || write.PinNot?)
      then Some(if write.PinIn? then Pinned else Reverting(false)) else None
    case BackupDirMade(ok) =>
      if ph.Pinned? then Some(if ok then Saving(0) else Reverting(true)) else None
    case LiveSaved(name, copy) =>
      if ph.Saving? && ph.done < |p.infra| && name == p.infra[ph.done] && Live(name) in d.files
      then Some(if copy.Whole? then Swapping(ph.done) else Reverting(true)) else None
    case LiveAbsent(name) =>
      if ph.Saving? && ph.done < |p.infra| && name == p.infra[ph.done] && Live(name) !in d.files
      then Some(Swapping(ph.done)) else None
    case LiveSwapped(name, copy) =>
      if ph.Swapping? && ph.done < |p.infra| && name == p.infra[ph.done] && (Staged(name) in d.files || copy.Untouched?)
      then Some(if copy.Whole? then Saving(ph.done + 1) else Reverting(true)) else None
    case Committed =>
      if ph == Saving(|p.infra|) then Some(Open) else None
    case Up(ok) =>
      if ph.Open? then Some(if ok then Started else Over(Broken)) else None
    case Healthy(ok) =>
      if ph.Started? then Some(if ok then Ready else Over(Broken)) else None
    case Finished =>
      if ph.Ready? then Some(Over(Updated)) else None
    case EnvRestored(copy) =>
      if ph.Reverting? && (EnvBackup(p.current) in d.files || copy.Untouched?)
      then Some(if !copy.Whole? then Over(Stuck)
                else if ph.named && p.current in d.backupDirs then RevertingInfra
                else Over(Restored))
      else None
    case LiveRestored(damage) =>
      if ph.RevertingInfra? then Some(Over(if damage.None? then Restored else Stuck)) else None
    case StageDropped(_) =>
      if Running(ph) then None else Some(ph)
    case Chore(_, ok) =>
      if Running(ph) && !ph.Asking? && !ph.Begin? then Some(if ok then ph else Failed(ph)) else None
    case Tried(_, _) =>
      if Running(ph) && !ph.Asking? && !ph.Begin? then Some(ph) else None
  }

  // ----- What an event does to the disk -----

  /** What a destination holds after a copy that did truncate it. */
  function Copied(source: string, copy: Copy): string {
    match copy
    case Cut(kept) => source[..if kept <= |source| then kept else |source|]
    case _ => source
  }

  function Write(d: Disk, dst: Path, source: string, copy: Copy): Disk {
    if copy.Untouched? then d else d.(files := d.files[dst := Copied(source, copy)])
  }

  function CopyFile(d: Disk, src: Path, dst: Path, copy: Copy): Disk {
    if src in d.files then Write(d, dst, d.files[src], copy) else d
  }

  function WritePin(d: Disk, image: string, write: PinWrite): Disk {
    if Env !in d.files then d
    else match write
      case PinIn => d.(files := (d.files - {EnvTmp})[Env := EnvPin.Repin(d.files[Env], image)])
      case PinNot => d
      case TmpLeft(text) => d.(files := d.files[EnvTmp := text])
  }

  /** `cp -a <backup dir>/. .`: every file of the backup directory back over the install. */
  function CopyBack(files: map<Path, string>, version: string): (after: map<Path, string>)
    ensures forall q: Path :: q in after <==> q in files || (q.Live? && Saved(version, q.name) in files)
    ensures forall q: Path | q in after ::
              after[q] == if q.Live? && Saved(version, q.name) in files then files[Saved(version, q.name)] else files[q]
  {
    var back := set q: Path | q in files && q.Saved? && q.version == version :: Live(q.name);
    assert forall q: Path | q.Live? && Saved(version, q.name) in files :: q in back;
    map q: Path | q in files.Keys + back ::
      if q.Live? && Saved(version, q.name) in files then files[Saved(version, q.name)] else files[q]
  }

  /** A `cp -a` that failed: any of the live files it was to write may hold anything. */
  function Damaged(files: map<Path, string>, version: string, damage: map<string, string>): (after: map<Path, string>)
    ensures forall q: Path :: q in after <==>
            q in files || (q.Live? && q.name in damage && Saved(version, q.name) in files)
    ensures forall q: Path | q in after ::
              after[q] == if q.Live? && q.name in damage && Saved(version, q.name) in files then damage[q.name]
                  else files[q]
  {
    var hit := set n: string | n in damage && Saved(version, n) in files :: Live(n);
    map q: Path | q in files.Keys + hit ::
      if q.Live? && q.name in damage && Saved(version, q.name) in files then damage[q.name] else files[q]
  }

  function Unstaged(files: map<Path, string>): map<Path, string> {
    map q: Path | q in files && !q.Staged? :: files[q]
  }

  function Effect(p: Plan, d: Disk, e: Event): Disk {
    match e
    case Fetched(name, copy) => if name in p.release then Write(d, Staged(name), p.release[name], copy) else d
    case EnvSaved(copy) => CopyFile(d, Env, EnvBackup(p.current), copy)
    case PinMoved(write) => WritePin(d, p.image, write)
    case BackupDirMade(ok) => if ok then d.(backupDirs := d.backupDirs + {p.current}) else d
    case LiveSaved(name, copy) => CopyFile(d, Live(name), Saved(p.current, name), copy)
    case LiveSwapped(name, copy) => CopyFile(d, Staged(name), Live(name), copy)
    case EnvRestored(copy) => CopyFile(d, EnvBackup(p.current), Env, copy)
    case LiveRestored(damage) =>
      d.(files := if damage.None? then CopyBack(d.files, p.current) else Damaged(d.files, p.current, damage.value))
    case StageDropped(ok) => if ok then d.(files := Unstaged(d.files)) else d
    case _ => d
  }

  // ----- Traces -----

  datatype State = State(phase: Phase, disk: Disk)

  function Step(p: Plan, s: State, e: Event): Option<State> {
    match Next(p, s.disk, s.phase, e)
    case None => None
    case Some(phase) => Some(State(phase, Effect(p, s.disk, e)))
  }

  /** The state a trace leads to from a fresh start on a disk; None when some event was not allowed. */
  function Follow(p: Plan, start: Disk, trace: seq<Event>): Option<State> {
    if trace == [] then Some(State(Begin, start))
    else
      match Follow(p, start, trace[..|trace| - 1])
      case None => None
      case Some(s) => Step(p, s, trace[|trace| - 1])
  }

  lemma FollowStep(p: Plan, start: Disk, trace: seq<Event>, e: Event)
    ensures Follow(p, start, trace + [e]) ==
            match Follow(p, start, trace) case None => None case Some(s) => Step(p, s, e)
  {
    assert (trace + [e])[..|trace|] == trace;
  }

  /** Every prefix of a trace the protocol allows is one too. */
  lemma {:induction false} FollowPrefix(p: Plan, start: Disk, trace: seq<Event>, k: nat)
    requires k <= |trace| && Follow(p, start, trace).Some?
    ensures Follow(p, start, trace[..k]).Some?
  {
    if k < |trace| {
      FollowPrefix(p, start, trace[..|trace| - 1], k);
      assert trace[..|trace| - 1][..k] == trace[..k];
    } else {
      assert trace[..k] == trace;
    }
  }
}
