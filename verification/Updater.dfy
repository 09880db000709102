/**
  The self-updater itself: the fields of `updater` and the methods of apps/api/cmd/update/update.go
  that change the disk, in the order Run takes them. Every answer of the outside world is drawn
  from `world`, so every step can fail. Each method records the events it emits; recording asks
  that UpdateProtocol allow the event, which ties the program to the theorems of UpdateSafety
  and UpdateRevert.
 */
module UpdaterProgram {
  import opened Base
  import opened UpdateProtocol
  import opened UpdateAnswers
  import opened UpdateSafety
  import opened UpdateRevert
  import EnvPin
  import Text

  datatype Report = NotInstalled | NoDirectory | NoPin | NoTarget | AlreadyOn | Ended

  const COMPOSE := "docker-compose.yml"
  const EXEC_FILES := {"scripts/backup.sh", "scripts/restore.sh", "scripts/update.sh"}
  function PlanFor(infra: seq<string>, release: map<string, string>, env: string, arg: string): Plan {
    Plan(infra, EnvPin.InstalledVersion(env), EnvPin.TargetImage(arg), release)
  }

  /** What a read leaves: the text after the line, or nothing when there was no whole line. */
  predicate LineTaken(input: string, rest: string) {
    match FirstLine(input)
    case Some(line) => line + "\n" + rest == input
    case None => rest == ""
  }

  /**
    `read -r`: one byte at a time up to the newline and no further, blanks trimmed; a line cut short
    by EOF is an error.
   */
  method ReadLine(input: string) returns (reply: Option<string>, rest: string)
    ensures reply == match FirstLine(input) case None => None case Some(line) => Some(TrimBlanks(line))
    ensures LineTaken(input, rest)
  {
    var line := "";
    for k := 0 to |input|
      invariant line == input[..k] && '\n' !in line
    {
      if input[k] == '\n' {
        rest := input[k + 1..];
        assert line + "\n" + rest == input;
        FirstLineIs(line, rest);
        return Some(TrimBlanks(line)), rest;
      }
      line := line + [input[k]];
    }
    assert line == input;
    return None, "";
  }

  /** A waived backup was waived by a y or Y typed on a terminal. */
  ghost predicate YesWasTyped(trace: seq<Event>, isTerminal: bool, typed: string) {
    Answered(true) in trace ==> isTerminal && SaysYes(typed)
  }

  /**
    What a run that is over leaves: a refused run the install it found; a restored one the old .env,
    and every live file too when an older backup directory agreed and no backup copy was cut short,
    and no file besides when there was nothing new to put in place; a stuck one the old .env in its
    backup, and where such a directory agreed and no copy was cut short every original file in its
    place or in the backup directory; an updated or broken one the new pin and every shipped file.
   */
  ghost predicate Accounted(p: Plan, was: Disk, trace: seq<Event>, phase: Phase, now: Disk) {
    && (phase == Over(Refused) ==> SameInstall(was, now))
    && (phase == Over(Restored) ==> SameAt(was, now, Env))
    && (phase == Over(Restored) && PriorBackupAgrees(p, was) && WholeSaves(trace) ==> Exact(was, now))
    && (phase == Over(Restored) && PriorBackupAgrees(p, was) && WholeSaves(trace) && NothingNew(p, was) ==>
          SameInstall(was, now))
    && (phase == Over(Stuck) ==> EnvKept(p, was, now))
    && (phase == Over(Stuck) && PriorBackupAgrees(p, was) && WholeSaves(trace) ==> FilesKept(p, was, now))
    && (phase == Over(Updated) || phase == Over(Broken) ==>
          EnvMoved(p, was, now) && forall n | n in p.infra :: Shipped(p, now, n))
  }

  class Updater {
    // The world.
    const world: nat -> Answer
    const isTerminal: bool
    const infra: seq<string>
    const release: map<string, string>
    const damage: map<string, string>
    const uid: string
    const gid: string
    const timerInstalled: bool
    const lockExists: bool
    const childStatus: nat
    var asked: nat
    var stdin: string
    var disk: Disk

    // The updater.
    var currentImage: string
    var currentVersion: string
    var targetVersion: string
    var targetImage: string
    var stageDir: bool
    var infraBackup: Option<string> // the version whose backup directory the exit trap reads
    var revertArmed: bool

    // The run so far.
    ghost var plan: Plan
    ghost var start: Disk
    ghost var trace: seq<Event>
    ghost var phase: Phase
    ghost var marks: seq<nat> // how many answers had been drawn after each event
    ghost var first: nat // how many before all of them
    ghost var typed: string // what stood on stdin when the run began

    constructor (world: nat -> Answer, isTerminal: bool, infra: seq<string>, release: map<string, string>,
                 damage: map<string, string>, ids: (string, string), timerInstalled: bool, lockExists: bool,
                 childStatus: nat, stdin: string, disk: Disk)
      requires childStatus != 0 && Distinct(infra)
      ensures Fresh() && this.disk == disk && this.stdin == stdin && asked == 0
      ensures this.world == world && this.isTerminal == isTerminal && this.infra == infra && this.release == release
    {
      this.world, this.isTerminal, this.infra, this.release, this.damage := world, isTerminal, infra, release, damage;
      this.uid, this.gid, this.timerInstalled, this.lockExists := ids.0, ids.1, timerInstalled, lockExists;
      this.childStatus, this.stdin, this.disk, this.asked := childStatus, stdin, disk, 0;
      currentImage, currentVersion, targetVersion, targetImage := "", "", "", "";
      stageDir, infraBackup, revertArmed := false, None, false;
      plan, start, trace, phase, marks := Plan([], "", "", map[]), disk, [], Begin, [];
      typed, first := stdin, 0;
    }

    ghost predicate Fresh() reads this {
      childStatus != 0 && Distinct(infra) && start == disk && trace == [] && marks == [] && phase == Begin &&
      !stageDir && infraBackup == None && !revertArmed
    }

    /** The run so far is one the protocol allows, and led to disk d. */
    ghost predicate LedTo(d: Disk)
      reads this`plan, this`currentVersion, this`targetImage, this`start, this`trace, this`phase, this`marks,
            this`first, this`typed
    {
      && childStatus != 0 && Distinct(infra)
      && plan == Plan(infra, currentVersion, targetImage, release)
      && Follow(plan, start, trace) == Some(State(phase, d))
      && Drawn(Met(), plan, start, trace, marks, first)
      && YesWasTyped(trace, isTerminal, typed)
    }

    /** The world as the run meets it. */
    ghost function Met(): World reads this`typed { World(world, isTerminal, typed, uid, gid) }

    /** The answers the events drew come up to here. */
    ghost function Mark(): nat reads this`marks, this`first { Upto(marks, first) }

    /** It led to the disk there is, its events drew every answer so far, and nothing was read before the question. */
    ghost predicate Tracks() reads this {
      LedTo(disk) && (BeforeAnswer(phase) ==> stdin == typed) && asked == Mark()
    }

    /** Until the question is answered nothing has been read from the terminal. */
    static ghost predicate BeforeAnswer(ph: Phase) { ph.Begin? || ph.Fetching? || ph.Asking? }

    /** ... and the two fields the exit trap reads say what phase it is in. */
    ghost predicate Valid() reads this {
      && Tracks()
      && (revertArmed <==> phase.InWindow() || phase.Reverting?)
      && (!phase.Over? ==> infraBackup == if Named(phase) then Some(currentVersion) else None)
    }

    /** The code of a run: 0, or 1, or the status of the command that reloads the units when that one failed. */
    ghost predicate Told(code: nat) reads this`trace {
      code <= 1 || (code == childStatus && Chore(ReloadUnits, false) in trace)
    }

    /** A body that ended: nothing is running any more, and code 0 means the update went through. */
    ghost predicate Left(code: nat) reads this {
      Valid() && !Running(phase) && !phase.RevertingInfra? && (code == 0 <==> phase == Over(Updated)) && Told(code)
      && phase != Over(Restored) && phase != Over(Stuck)
    }

    // ----- What the outside world answers -----

    /** The n answers from one on are successes. */
    ghost predicate AllOk(first: nat, n: nat) {
      forall i: nat | first <= i < first + n :: world(i).Ok?
    }

    /** Every answer is a success. */
    ghost predicate Smooth() {
      forall i: nat :: world(i).Ok?
    }

    /** Every file is shipped, and there is a backup script to run or a yes to be had without one. */
    ghost predicate Supplied(d: Disk, input: string) {
      && (forall n <- infra :: n in release)
      && (Live(BACKUP_SCRIPT) in d.files || (isTerminal && SaysYes(input)))
    }

    /** What `id` prints in the target image is nothing or two integers. */
    ghost predicate IdsUsable() {
      uid != "" && gid != "" ==> Text.Atoi(uid).Some? && Text.Atoi(gid).Some?
    }

    /** After n successes one answer is a refusal, and the three of the exit trap are successes. */
    ghost predicate RefusedAt(first: nat, n: nat) {
      AllOk(first, n) && world(first + n).Refuse? && AllOk(first + n + 1, 3)
    }

    /** The same with a write cut short. */
    ghost predicate CutOffAt(first: nat, n: nat) {
      AllOk(first, n) && world(first + n).CutAt? && AllOk(first + n + 1, 3)
    }

    lemma OkLater(first: nat, k: nat, n: nat)
      ensures RefusedAt(first, k + n) ==> AllOk(first, k) && RefusedAt(first + k, n)
      ensures CutOffAt(first, k + n) ==> AllOk(first, k) && CutOffAt(first + k, n)
      ensures Smooth() ==> AllOk(first, k)
    {
    }

    lemma TwoOk(first: nat)
      ensures AllOk(first, 2) <==> world(first).Ok? && world(first + 1).Ok?
    {
    }

    /** The install is there and can be entered, and its .env can be read and has a pin that is not empty. */
    ghost predicate PinReadable(d: Disk, first: nat) {
      && Live(COMPOSE) in d.files && world(first).Ok? && Env in d.files && world(first + 1).Ok?
      && EnvPin.CurrentImage(d.files[Env]) != ""
    }

    /** How many answers a run draws from its staging to its backup directory when all of them are successes. */
    ghost function AsksToBackupDir(d: Disk): nat {
      2 * |infra| + (if Live(BACKUP_SCRIPT) in d.files then 2 else 0) + 5
    }

    method Ask() returns (answer: Answer)
      modifies this`asked
      ensures answer == world(old(asked)) && asked == old(asked) + 1
    {
      answer := world(asked);
      asked := asked + 1;
    }

    /** Records an event whose effect on the disk has just been made, and which drew the answers since the last one. */
    ghost method Record(before: Disk, e: Event)
      requires LedTo(before) && (e == Answered(true) ==> isTerminal && SaysYes(typed))
      requires BeforeAnswer(phase) && !e.Answered? ==> stdin == typed
      requires Next(plan, before, phase, e).Some? && disk == Effect(plan, before, e)
      requires Justified(Met(), plan, before, e, Mark(), asked)
      modifies this`trace, this`marks, this`phase
      ensures Tracks() && trace == old(trace) + [e] && phase == Next(plan, before, old(phase), e).value
      ensures SavesOf(trace) == SavesOf(old(trace)) + if e.LiveSaved? then [e] else []
      ensures TasksOf(trace) == TasksOf(old(trace)) + TaskOf(e)
    {
      hide Follow, Effect, SavesOf, SaysYes, Drawn, Justified, TasksOf;
      FollowStep(plan, start, trace, e);
      DrawnStep(Met(), plan, start, trace, marks, first, e, asked);
      SavesOfStep(trace, e);
      TasksOfStep(trace, e);
      trace := trace + [e];
      marks := marks + [asked];
      phase := Next(plan, before, old(phase), e).value;
    }

    /** copyFile: the source may be missing; a destination once opened is truncated, and the copy may stop half-way. */
    method CopyTo(src: Path, dst: Path) returns (how: Copy)
      modifies this`disk, this`asked
      ensures how.Untouched? || src in old(disk).files
      ensures disk == CopyFile(old(disk), src, dst, how) && disk.backupDirs == old(disk).backupDirs
      ensures asked == old(asked) + 1 && (src in old(disk).files ==> how == CopyFor(world(old(asked))))
    {
      var answer := Ask();
      if src !in disk.files || answer.Refuse? || answer.Panic? {
        return Untouched;
      }
      how := if answer.CutAt? then Cut(answer.kept) else Whole;
      disk := disk.(files := disk.files[dst := Copied(disk.files[src], how)]);
    }

    /** A step that changes no modelled content: making a directory, a mode, an owner, a timestamp. */
    method DoChore(task: Task) returns (ok: bool)
      requires Valid() && Running(phase) && !phase.Begin? && !phase.Asking?
      requires !Forgiven(task) && !task.RunBackup? && !task.Poll?
      modifies this`asked, this`trace, this`marks, this`phase
      ensures Valid() && phase == if ok then old(phase) else Failed(old(phase))
      ensures asked == old(asked) + 1 && (ok <==> world(old(asked)).Ok?) && SavesOf(trace) == SavesOf(old(trace))
      ensures (ok ==> TasksOf(trace) == TasksOf(old(trace)) + [task]) && trace == old(trace) + [Chore(task, ok)]
    {
      hide Follow, Drawn, YesWasTyped, SavesOf, TasksOf, Next, Effect, Justified;
      var answer := Ask();
      ok := answer.Ok?;
      ChoreIs(Met(), plan, disk, phase, task, ok, Mark());
      Record(disk, Chore(task, ok));
    }

    /** A step whose failure is a warning at most; a panic ends the run all the same. */
    method Attempt(task: Task) returns (ok: bool)
      requires Valid() && Running(phase) && !phase.Begin? && !phase.Asking? && Forgiven(task)
      modifies this`asked, this`trace, this`marks, this`phase
      ensures Valid() && phase == if ok then old(phase) else Failed(old(phase))
      ensures asked == old(asked) + 1 && (ok <==> !world(old(asked)).Panic?) && SavesOf(trace) == SavesOf(old(trace))
      ensures ok ==> TasksOf(trace) == TasksOf(old(trace)) + [task]
    {
      hide Follow, Drawn, YesWasTyped, SavesOf, TasksOf, Next, Effect, Justified;
      var answer := Ask();
      ok := !answer.Panic?;
      AttemptIs(Met(), plan, disk, phase, task, Mark());
      Record(disk, if ok then Tried(task, answer.Ok?) else Chore(task, false));
    }

    // ----- What is recorded of the single steps -----

    ghost method NoneToSave(i: nat)
      requires LedTo(disk) && phase == Saving(i) && i < |infra| && Live(infra[i]) !in disk.files && asked == Mark()
      modifies this`trace, this`marks, this`phase
      ensures Tracks() && phase == Swapping(i)
      ensures SavesOf(trace) == SavesOf(old(trace)) && TasksOf(trace) == TasksOf(old(trace))
    {
      hide Follow, Drawn, YesWasTyped, SavesOf, TasksOf, Next, Effect, Justified;
      AbsentIs(Met(), plan, disk, i, Mark());
      Record(disk, LiveAbsent(infra[i]));
    }

    ghost method LiveIsSaved(before: Disk, i: nat, how: Copy)
      requires LedTo(before) && phase == Saving(i) && i < |infra| && Live(infra[i]) in before.files
      requires asked == Mark() + 1 && how == CopyFor(world(Mark()))
      requires disk == CopyFile(before, Live(infra[i]), Saved(currentVersion, infra[i]), how)
      modifies this`trace, this`marks, this`phase
      ensures Tracks() && phase == if how.Whole? then Swapping(i) else Reverting(true)
      ensures SavesOf(trace) == SavesOf(old(trace)) + [LiveSaved(infra[i], how)]
      ensures TasksOf(trace) == TasksOf(old(trace))
    {
      hide Follow, Drawn, YesWasTyped, SavesOf, TasksOf, Next, Effect, Justified, CopyFile;
      SavedIs(Met(), plan, before, i, Mark());
      Record(before, LiveSaved(infra[i], how));
    }

    ghost method LiveIsSwapped(before: Disk, i: nat, how: Copy)
      requires LedTo(before) && phase == Swapping(i) && i < |infra|
      requires asked == Mark() + 1 && how == CopyOf(before, Staged(infra[i]), world(Mark()))
      requires disk == CopyFile(before, Staged(infra[i]), Live(infra[i]), how)
      modifies this`trace, this`marks, this`phase
      ensures Tracks() && phase == if how.Whole? then Saving(i + 1) else Reverting(true)
      ensures SavesOf(trace) == SavesOf(old(trace)) && TasksOf(trace) == TasksOf(old(trace))
    {
      hide Follow, Drawn, YesWasTyped, SavesOf, TasksOf, Next, Effect, Justified, CopyFile;
      SwappedIs(Met(), plan, before, i, how, Mark());
      Record(before, LiveSwapped(infra[i], how));
    }

    ghost method EnvIsSaved(before: Disk, how: Copy)
      requires LedTo(before) && phase == Cleared && asked == Mark() + 1 && how == CopyOf(before, Env, world(Mark()))
      requires disk == CopyFile(before, Env, EnvBackup(currentVersion), how)
      modifies this`trace, this`marks, this`phase
      ensures Tracks() && phase == (if how.Whole? then Armed else Over(Refused))
      ensures TasksOf(trace) == TasksOf(old(trace))
    {
      hide Follow, Drawn, YesWasTyped, SavesOf, TasksOf, CopyFile;
      Record(before, EnvSaved(how));
    }

    ghost method WaitIsOver(polls: nat, outcome: Answer)
      requires LedTo(disk) && phase == Started && asked == Mark() + polls
      requires 0 < polls <= 45 && PollsFail(world, Mark(), polls - 1) && world(Mark() + polls - 1) == outcome
      requires !outcome.Ok? && !outcome.Panic? ==> polls == 45
      modifies this`trace, this`marks, this`phase
      ensures Tracks() && phase == (if outcome.Ok? then Ready else Over(Broken))
      ensures TasksOf(trace) == TasksOf(old(trace))
    {
      hide Follow, Drawn, YesWasTyped, SavesOf, TasksOf, Next, Effect, Justified;
      WaitIs(Met(), plan, disk, polls, Mark());
      Record(disk, if outcome.Panic? then Chore(Poll, false) else Healthy(outcome.Ok?));
    }

    // ----- Stage and back up -----

    method Stage() returns (ok: bool)
      requires Valid() && phase == Fetching(0)
      modifies this`asked, this`trace, this`marks, this`phase, this`disk
      ensures Valid() && phase == if ok then Fetching(|infra|) else Over(Refused)
      ensures AllOk(old(asked), 2 * |infra|) && (forall n <- infra :: n in release) ==>
              ok && asked == old(asked) + 2 * |infra|
      ensures ok ==> TasksOf(trace) == TasksOf(old(trace)) + StageTasks(infra, |infra|)
    {
      hide Follow, Drawn, YesWasTyped, SavesOf, TasksOf, Tracks;
      for i := 0 to |infra|
        invariant Valid() && phase == Fetching(i) && asked == old(asked) + 2 * i
        invariant TasksOf(trace) == TasksOf(old(trace)) + StageTasks(infra, i)
      {
        var made := DoChore(MakeDir(Staged(infra[i])));
        if !made {
          return false;
        }
        var fetched := Fetch(infra[i], i);
        if !fetched {
          return false;
        }
      }
      return true;
    }

    method Fetch(name: string, ghost i: nat) returns (ok: bool)
      requires Valid() && i < |infra| && name == infra[i] && phase == Fetching(i)
      modifies this`asked, this`trace, this`marks, this`phase, this`disk
      ensures Valid() && phase == if ok then Fetching(i + 1) else Over(Refused)
      ensures asked == old(asked) + 1 && (world(old(asked)).Ok? && name in release ==> ok)
      ensures TasksOf(trace) == TasksOf(old(trace))
    {
      hide Follow, Drawn, YesWasTyped, SavesOf, TasksOf, Next, Effect, Justified;
      ghost var before := disk;
      FetchedIs(Met(), plan, before, i, Mark());
      var answer := Ask();
      var how := if name !in release || answer.Refuse? || answer.Panic? then Untouched
                 else if answer.CutAt? then Cut(answer.kept) else Whole;
      if !how.Untouched? {
        disk := disk.(files := disk.files[Staged(name) := Copied(release[name], how)]);
      }
      Record(before, Fetched(name, how));
      ok := how.Whole?;
    }

    /**
      Runs backup.sh, with --local-only-ok only when the script mentions it. A failed run is no
      backup; a panic ends the update.
     */
    method RunBackupScript() returns (taken: bool, panicked: bool)
      requires Valid() && phase == Fetching(|infra|) && Live(BACKUP_SCRIPT) in disk.files
      modifies this`asked, this`trace, this`marks, this`phase
      ensures Valid()
      ensures if taken then phase == Cleared && trace[|trace| - 1].BackupTaken?
              else phase == if panicked then Over(Refused) else Asking
      ensures asked == old(asked) + 2 && (AllOk(old(asked), 2) ==> taken) && !(taken && panicked)
      ensures !panicked ==> TasksOf(trace) == TasksOf(old(trace))
    {
      hide Follow, Drawn, YesWasTyped, SavesOf, TasksOf, Next, Effect, Justified;
      BackupRunIs(Met(), plan, disk, Mark());
      var readable := Ask();
      var localOnly := readable.Ok? && Contains(disk.files[Live(BACKUP_SCRIPT)], LOCAL_ONLY);
      var answer := Ask();
      taken, panicked := answer.Ok?, answer.Panic?;
      ghost var e :=
        if taken then BackupTaken(localOnly) else if panicked then Chore(RunBackup, false) else BackupMissing;
      Record(disk, e);
    }

    /** The pre-update backup: only it, or a yes typed on a terminal, lets the run go on. */
    method BackUp() returns (ok: bool)
      requires Valid() && phase == Fetching(|infra|)
      modifies this`asked, this`trace, this`marks, this`phase, this`stdin
      ensures Valid() && phase == if ok then Cleared else Over(Refused)
      ensures ok ==> trace[|trace| - 1].BackupTaken? || (isTerminal && SaysYes(old(stdin)))
      ensures var n := if Live(BACKUP_SCRIPT) in disk.files then 2 else 0;
              AllOk(old(asked), n) && (n == 2 || (isTerminal && SaysYes(old(stdin)))) ==> ok && asked == old(asked) + n
      ensures ok ==> TasksOf(trace) == TasksOf(old(trace))
    {
      hide Follow, Drawn, YesWasTyped, SavesOf, TasksOf;
      if Live(BACKUP_SCRIPT) in disk.files {
        var taken, panicked := RunBackupScript();
        if taken || panicked {
          return taken;
        }
      } else {
        Record(disk, BackupMissing);
      }
      ok := AskContinueWithoutBackup();
    }

    method AskContinueWithoutBackup() returns (ok: bool)
      requires Valid() && phase == Asking
      modifies this`trace, this`marks, this`phase, this`stdin
      ensures Valid() && phase == if ok then Cleared else Over(Refused)
      ensures ok <==> isTerminal && SaysYes(old(stdin))
      ensures if isTerminal then LineTaken(old(stdin), stdin) else stdin == old(stdin)
      ensures TasksOf(trace) == TasksOf(old(trace)) && asked == old(asked)
    {
      hide Follow, Drawn, TasksOf, SavesOf, SaysYes, LineTaken, YesWasTyped;
      if !isTerminal {
        Record(disk, Answered(false));
        return false;
      }
      ok := ReadYes();
      Record(disk, Answered(ok));
    }

    method ReadYes() returns (yes: bool)
      modifies this`stdin
      ensures (yes <==> SaysYes(old(stdin))) && LineTaken(old(stdin), stdin)
    {
      hide FirstLine, TrimBlanks;
      var reply, rest := ReadLine(stdin);
      stdin := rest;
      yes := reply == Some("y") || reply == Some("Y");
    }

    // ----- The window -----

    method SaveEnv() returns (ok: bool)
      requires Valid() && phase == Cleared
      modifies this`asked, this`trace, this`marks, this`phase, this`disk, this`revertArmed
      ensures Valid() && phase == if ok then Armed else Over(Refused)
      ensures asked == old(asked) + 1 && (world(old(asked)).Ok? && Env in old(disk).files ==> ok)
      ensures TasksOf(trace) == TasksOf(old(trace))
    {
      hide Follow, Drawn, YesWasTyped, SavesOf, TasksOf, LedTo, CopyFile;
      ghost var before := disk;
      var how := CopyTo(Env, EnvBackup(currentVersion));
      EnvIsSaved(before, how);
      ok := how.Whole?;
      revertArmed := ok;
    }

    /** The pin moves through .env.tmp and a rename, so .env itself is either the old text or the new one. */
    method MovePin() returns (ok: bool)
      requires Valid() && phase == Armed && Env in disk.files && EnvPin.HasPin(disk.files[Env])
      modifies this`asked, this`trace, this`marks, this`phase, this`disk, this`infraBackup
      ensures Valid() && phase == if ok then Pinned else Reverting(false)
      ensures AllOk(old(asked), 3) ==> ok && asked == old(asked) + 3
      ensures TasksOf(trace) == TasksOf(old(trace))
    {
      hide Follow, Drawn, YesWasTyped, SavesOf, TasksOf;
      ghost var before := disk;
      var answer := Ask();
      if !answer.Ok? {
        Record(before, PinMoved(PinNot));
        return false;
      }
      var text := EnvPin.RewritePin(disk.files[Env], targetImage);
      ok := ReplaceEnv(text);
    }

    /** Writes .env.tmp; None when it could not even be opened. */
    method WriteTmp(text: string) returns (how: Copy)
      modifies this`asked, this`disk
      ensures asked == old(asked) + 1 && how == CopyFor(world(old(asked)))
      ensures disk == Write(old(disk), EnvTmp, text, how)
    {
      var answer := Ask();
      how := CopyFor(answer);
      if !how.Untouched? {
        disk := disk.(files := disk.files[EnvTmp := Copied(text, how)]);
      }
    }

    method ReplaceEnv(text: string) returns (ok: bool)
      requires LedTo(disk) && phase == Armed && revertArmed && infraBackup == None
      requires Env in disk.files && text == EnvPin.Repin(disk.files[Env], targetImage)
      requires asked == Mark() + 1 && world(Mark()).Ok?
      modifies this`asked, this`trace, this`marks, this`phase, this`disk, this`infraBackup
      ensures Valid() && phase == if ok then Pinned else Reverting(false)
      ensures AllOk(old(asked), 2) ==> ok && asked == old(asked) + 2
      ensures TasksOf(trace) == TasksOf(old(trace))
    {
      hide Follow, Drawn, YesWasTyped, SavesOf, TasksOf, EnvPin.Repin;
      ghost var before := disk;
      var how := WriteTmp(text);
      if how.Untouched? {
        Record(before, PinMoved(PinNot));
        return false;
      }
      ok := RenameTmp(text, how, before);
    }

    /** Only a whole .env.tmp is renamed. */
    method RenameTmp(text: string, how: Copy, ghost before: Disk) returns (ok: bool)
      requires LedTo(before) && phase == Armed && revertArmed && infraBackup == None
      requires Env in before.files && text == EnvPin.Repin(before.files[Env], targetImage)
      requires !how.Untouched? && disk == Write(before, EnvTmp, text, how)
      requires asked == Mark() + 2 && world(Mark()).Ok? && how == CopyFor(world(Mark() + 1))
      modifies this`asked, this`trace, this`marks, this`phase, this`disk, this`infraBackup
      ensures Valid() && phase == if ok then Pinned else Reverting(false)
      ensures asked == old(asked) + 1 && (ok <==> how.Whole? && world(old(asked)).Ok?)
      ensures TasksOf(trace) == TasksOf(old(trace))
    {
      hide Follow, Drawn, YesWasTyped, SavesOf, TasksOf, Next, Effect, Justified, EnvPin.Repin, LedTo;
      var answer := Ask();
      ok := how.Whole? && answer.Ok?;
      if ok {
        disk := disk.(files := (disk.files - {EnvTmp})[Env := text]);
        assert disk.files == (before.files - {EnvTmp})[Env := text];
        PinIsIn(before);
        infraBackup := Some(currentVersion);
      } else {
        TmpIsLeft(text, how, before);
      }
    }

    /** What has been written of the new .env stays in .env.tmp. */
    ghost method TmpIsLeft(text: string, how: Copy, before: Disk)
      requires LedTo(before) && phase == Armed && revertArmed && infraBackup == None
      requires Env in before.files && text == EnvPin.Repin(before.files[Env], targetImage)
      requires !how.Untouched? && disk == Write(before, EnvTmp, text, how)
      requires asked == Mark() + 3 && world(Mark()).Ok? && how == CopyFor(world(Mark() + 1))
      requires !(how.Whole? && world(Mark() + 2).Ok?)
      modifies this`trace, this`marks, this`phase
      ensures Valid() && phase == Reverting(false) && TasksOf(trace) == TasksOf(old(trace))
    {
      hide Follow, Drawn, YesWasTyped, SavesOf, TasksOf, Next, Effect, Justified, EnvPin.Repin;
      PinMovedIs(Met(), plan, before, Mark());
      Record(before, PinMoved(TmpLeft(Copied(text, how))));
    }

    ghost method PinIsIn(before: Disk)
      requires LedTo(before) && phase == Armed && revertArmed && Env in before.files
      requires disk == WritePin(before, targetImage, PinIn)
      requires asked == Mark() + 3 && world(Mark()).Ok? && world(Mark() + 1).Ok? && world(Mark() + 2).Ok?
      modifies this`trace, this`marks, this`phase
      ensures Tracks() && phase == Pinned && TasksOf(trace) == TasksOf(old(trace))
    {
      hide Follow, Drawn, YesWasTyped, SavesOf, TasksOf, Next, Effect, Justified, WritePin;
      PinMovedIs(Met(), plan, before, Mark());
      Record(before, PinMoved(PinIn));
    }

    method OpenBackupDir() returns (ok: bool)
      requires Valid() && phase == Pinned
      modifies this`asked, this`trace, this`marks, this`phase, this`disk
      ensures Valid() && phase == if ok then Saving(0) else Reverting(true)
      ensures asked == old(asked) + 1 && (world(old(asked)).Ok? <==> ok)
      ensures TasksOf(trace) == TasksOf(old(trace))
    {
      hide Follow, Drawn, YesWasTyped, SavesOf, TasksOf;
      ghost var before := disk;
      var answer := Ask();
      ok := answer.Ok?;
      if ok {
        disk := disk.(backupDirs := disk.backupDirs + {currentVersion});
      }
      Record(before, BackupDirMade(ok));
    }

    method SwapInfra() returns (ok: bool)
      requires Valid() && phase == Saving(0)
      modifies this`asked, this`trace, this`marks, this`phase, this`disk
      ensures Valid() && phase == if ok then Saving(|infra|) else Reverting(true)
      ensures disk.backupDirs == old(disk.backupDirs) && (Smooth() ==> ok)
      ensures |infra| == 0 ==> ok && asked == old(asked) && trace == old(trace)
      ensures |infra| > 0 && world(old(asked)).Refuse? ==>
              !ok && asked == old(asked) + 1 && SavesOf(trace) == SavesOf(old(trace))
      ensures |infra| > 0 && Live(infra[0]) in old(disk).files && world(old(asked)).Ok? &&
              world(old(asked) + 1).CutAt? ==>
                !ok && asked == old(asked) + 2
                && SavesOf(trace) == SavesOf(old(trace)) + [LiveSaved(infra[0], Cut(world(old(asked) + 1).kept))]
      ensures ok ==> TasksOf(trace) == TasksOf(old(trace)) + SwapTasks(plan, start, |infra|)
    {
      hide SavesOf, TasksOf, Valid, Smooth, SwapTask;
      PlanIs();
      for i := 0 to |infra|
        invariant Valid() && phase == Saving(i) && disk.backupDirs == old(disk.backupDirs)
        invariant TasksOf(trace) == TasksOf(old(trace)) + SwapTasks(plan, start, i)
        invariant i == 0 ==> asked == old(asked) && trace == old(trace) && disk == old(disk)
        invariant i > 0 ==> !world(old(asked)).Refuse?
        invariant i > 0 && Live(infra[0]) in old(disk).files && world(old(asked)).Ok? ==> !world(old(asked) + 1).CutAt?
      {
        var swapped := SwapOne(i);
        if !swapped {
          return false;
        }
      }
      return true;
    }

    /** One infra file: the old one saved, the new one in its place. */
    method SwapOne(i: nat) returns (ok: bool)
      requires Valid() && i < |infra| && phase == Saving(i)
      modifies this`asked, this`trace, this`marks, this`phase, this`disk
      ensures Valid() && phase == if ok then Saving(i + 1) else Reverting(true)
      ensures disk.backupDirs == old(disk.backupDirs) && (Smooth() ==> ok)
      ensures world(old(asked)).Refuse? ==> !ok && asked == old(asked) + 1 && SavesOf(trace) == SavesOf(old(trace))
      ensures Live(infra[i]) in old(disk).files && world(old(asked)).Ok? && world(old(asked) + 1).CutAt? ==>
                !ok && asked == old(asked) + 2
                && SavesOf(trace) == SavesOf(old(trace)) + [LiveSaved(infra[i], Cut(world(old(asked) + 1).kept))]
      ensures ok ==>
              TasksOf(trace) == TasksOf(old(trace)) +
              SwapTask(currentVersion, infra[i], Live(infra[i]) in start.files)
    {
      hide Follow, Drawn, YesWasTyped, SavesOf, TasksOf, Tracks, ModeTask;
      AtTurn(i);
      ok := SaveLive(infra[i], i);
      if ok {
        StagedIsThere(i);
        ok := SwapLive(infra[i], i);
      }
    }

    lemma PlanIs()
      requires Valid()
      ensures plan.infra == infra && plan.current == currentVersion && plan.release == release
    {
    }

    /** A file whose turn has come is as the run found it. */
    lemma AtTurn(i: nat)
      requires Valid() && phase == Saving(i) && i < |infra|
      ensures SameAt(start, disk, Live(infra[i]))
    {
      TraceKeeps(plan, start, trace);
      assert infra[i] !in infra[..i];
    }

    /** Every file to be swapped in has been staged. */
    lemma StagedIsThere(i: nat)
      requires Valid() && phase == Swapping(i)
      ensures i < |infra| && Staged(infra[i]) in disk.files
    {
      TraceKeeps(plan, start, trace);
    }

    /** Keeps the live file, if there is one, in the backup directory before it is replaced. */
    method SaveLive(name: string, ghost i: nat) returns (ok: bool)
      requires Valid() && i < |infra| && name == infra[i] && phase == Saving(i)
      modifies this`asked, this`trace, this`marks, this`phase, this`disk
      ensures Valid() && phase == if ok then Swapping(i) else Reverting(true)
      ensures disk.backupDirs == old(disk.backupDirs) && (Smooth() ==> ok)
      ensures Live(name) !in old(disk).files ==> ok && asked == old(asked) && SavesOf(trace) == SavesOf(old(trace))
      ensures Live(name) in old(disk).files && !world(old(asked)).Ok? ==>
              !ok && asked == old(asked) + 1 && SavesOf(trace) == SavesOf(old(trace))
      ensures Live(name) in old(disk).files && world(old(asked)).Ok? ==>
                var how := CopyFor(world(old(asked) + 1));
                asked == old(asked) + 2 && (ok <==> how.Whole?) &&
                    SavesOf(trace) == SavesOf(old(trace)) + [LiveSaved(name, how)]
      ensures ok ==>
              TasksOf(trace) == TasksOf(old(trace)) +
              (if Live(name) in old(disk).files then [MakeDir(Saved(currentVersion, name))] else [])
    {
      hide Follow, Drawn, YesWasTyped, SavesOf, TasksOf, Next, Effect, Justified, LedTo, CopyFile;
      if Live(name) !in disk.files {
        NoneToSave(i);
        return true;
      }
      var made := DoChore(MakeDir(Saved(currentVersion, name)));
      if !made {
        return false;
      }
      ghost var before := disk;
      var how := CopyTo(Live(name), Saved(currentVersion, name));
      LiveIsSaved(before, i, how);
      return how.Whole?;
    }

    method SwapLive(name: string, ghost i: nat) returns (ok: bool)
      requires Valid() && i < |infra| && name == infra[i] && phase == Swapping(i)
      modifies this`asked, this`trace, this`marks, this`phase, this`disk
      ensures Valid() && phase == if ok then Saving(i + 1) else Reverting(true)
      ensures disk.backupDirs == old(disk.backupDirs) && (Smooth() && Staged(name) in old(disk).files ==> ok)
      ensures !world(old(asked)).Ok? ==> !ok && asked == old(asked) + 1 && SavesOf(trace) == SavesOf(old(trace))
      ensures ok ==> TasksOf(trace) == TasksOf(old(trace)) + ([MakeDir(Live(name))] + ModeTask(name))
    {
      hide Follow, Drawn, YesWasTyped, SavesOf, TasksOf, Next, Effect, Justified, LedTo, CopyFile;
      var made := DoChore(MakeDir(Live(name)));
      if !made {
        return false;
      }
      ghost var before := disk;
      var how := CopyTo(Staged(name), Live(name));
      LiveIsSwapped(before, i, how);
      ok := how.Whole?;
      if ok {
        ok := MakeExecutable(name);
      }
    }

    method MakeExecutable(name: string) returns (ok: bool)
      requires Valid() && phase.Saving?
      modifies this`asked, this`trace, this`marks, this`phase
      ensures Valid() && phase == (if ok then old(phase) else Reverting(true)) && (Smooth() ==> ok)
      ensures ok ==> TasksOf(trace) == TasksOf(old(trace)) + ModeTask(name)
    {
      hide Follow, Drawn, YesWasTyped, SavesOf, TasksOf;
      ok := true;
      if name in EXEC_FILES {
        ok := DoChore(AddExec(name));
      }
    }

    /** What `id` prints in the target image, whether or not the command succeeds. */
    method Capture(task: Task, printed: string) returns (ok: bool, text: string)
      requires Valid() && phase == Saving(|infra|) && Forgiven(task)
      modifies this`asked, this`trace, this`marks, this`phase
      ensures Valid() && phase == if ok then Saving(|infra|) else Reverting(true)
      ensures text == printed && (Smooth() ==> ok)
      ensures ok ==> TasksOf(trace) == TasksOf(old(trace)) + [task]
    {
      hide Follow, Drawn, YesWasTyped, SavesOf, TasksOf;
      ok := Attempt(task);
      text := printed;
    }

    /** chown with the ids as printed: anything but two integers is refused. */
    method Chown(name: string, u: string, g: string) returns (ok: bool)
      requires Valid() && phase == Saving(|infra|) && u == uid && g == gid
      modifies this`asked, this`trace, this`marks, this`phase
      ensures Valid() && phase == if ok then Saving(|infra|) else Reverting(true)
      ensures ok ==> Text.Atoi(u).Some? && Text.Atoi(g).Some?
      ensures Smooth() && Text.Atoi(u).Some? && Text.Atoi(g).Some? ==> ok
      ensures ok ==> TasksOf(trace) == TasksOf(old(trace)) + [Own(name)]
    {
      hide Follow, Drawn, YesWasTyped, SavesOf, TasksOf;
      if Text.Atoi(u).None? || Text.Atoi(g).None? {
        Record(disk, Chore(Own(name), false));
        return false;
      }
      ok := DoChore(Own(name));
    }

    method ChownIf(haveIDs: bool, name: string, u: string, g: string) returns (ok: bool)
      requires Valid() && phase == Saving(|infra|) && u == uid && g == gid
      modifies this`asked, this`trace, this`marks, this`phase
      ensures Valid() && phase == if ok then Saving(|infra|) else Reverting(true)
      ensures Smooth() && (haveIDs ==> Text.Atoi(u).Some? && Text.Atoi(g).Some?) ==> ok
      ensures ok ==> TasksOf(trace) == TasksOf(old(trace)) + OwnTask(haveIDs, name)
    {
      hide Follow, Drawn, YesWasTyped, SavesOf, TasksOf;
      if haveIDs {
        ok := Chown(name, u, g);
      } else {
        ok := true;
      }
    }

    /** The image has told both ids. */
    ghost predicate HaveIds() { uid != "" && gid != "" }

    method PrepareFileMounts() returns (ok: bool, haveIDs: bool, u: string, g: string)
      requires Valid() && phase == Saving(|infra|)
      modifies this`asked, this`trace, this`marks, this`phase
      ensures Valid() && phase == if ok then Saving(|infra|) else Reverting(true)
      ensures Smooth() && IdsUsable() ==> ok
      ensures !world(old(asked)).Ok? ==> !ok && asked == old(asked) + 1 && SavesOf(trace) == SavesOf(old(trace))
      ensures ok ==> u == uid && g == gid && (haveIDs <==> HaveIds())
      ensures ok ==>
              TasksOf(trace) == TasksOf(old(trace)) + [MakeMount("filemounts"), AskUid, AskGid] +
              OwnTask(HaveIds(), "filemounts")
    {
      hide Follow, Drawn, YesWasTyped, SavesOf, TasksOf, Tracks;
      haveIDs, u, g := false, "", "";
      ok := DoChore(MakeMount("filemounts"));
      if !ok { return; }
      ok, u := Capture(AskUid, uid);
      if !ok { return; }
      ok, g := Capture(AskGid, gid);
      if !ok { return; }
      haveIDs := u != "" && g != "";
      ok := ChownIf(haveIDs, "filemounts", u, g);
    }

    method PrepareBackups(haveIDs: bool, u: string, g: string) returns (ok: bool)
      requires Valid() && phase == Saving(|infra|) && u == uid && g == gid
      modifies this`asked, this`trace, this`marks, this`phase
      ensures Valid() && phase == if ok then Saving(|infra|) else Reverting(true)
      ensures Smooth() && (haveIDs ==> Text.Atoi(u).Some? && Text.Atoi(g).Some?) ==> ok
      ensures ok ==>
              TasksOf(trace) == TasksOf(old(trace)) + [MakeMount("backups")] + OwnTask(haveIDs, "backups") +
              (if haveIDs && lockExists then [OwnLock, LoosenLock] else [])
    {
      hide Follow, Drawn, YesWasTyped, SavesOf, TasksOf, Tracks;
      ok := DoChore(MakeMount("backups"));
      if !ok { return; }
      ok := ChownIf(haveIDs, "backups", u, g);
      if ok && haveIDs && lockExists {
        ok := RepairLock();
      }
    }

    /** Repairing the lock must never fail the update. */
    method RepairLock() returns (ok: bool)
      requires Valid() && phase == Saving(|infra|)
      modifies this`asked, this`trace, this`marks, this`phase
      ensures Valid() && phase == if ok then Saving(|infra|) else Reverting(true)
      ensures Smooth() ==> ok
      ensures ok ==> TasksOf(trace) == TasksOf(old(trace)) + [OwnLock, LoosenLock]
    {
      hide Follow, Drawn, YesWasTyped, SavesOf, TasksOf;
      ok := Attempt(OwnLock);
      if ok {
        ok := Attempt(LoosenLock);
      }
    }

    method PrepareRemoteEnv(haveIDs: bool, u: string, g: string) returns (ok: bool)
      requires Valid() && phase == Saving(|infra|) && u == uid && g == gid
      modifies this`asked, this`trace, this`marks, this`phase
      ensures Valid() && phase == if ok then Saving(|infra|) else Reverting(true)
      ensures Smooth() && (haveIDs ==> Text.Atoi(u).Some? && Text.Atoi(g).Some?) ==> ok
      ensures ok ==>
              TasksOf(trace) == TasksOf(old(trace)) +
              [Touch("backup-remote.env"), Restrict("backup-remote.env")] + OwnTask(haveIDs, "backup-remote.env")
    {
      hide Follow, Drawn, YesWasTyped, SavesOf, TasksOf, Tracks;
      ok := DoChore(Touch("backup-remote.env"));
      if !ok { return; }
      ok := DoChore(Restrict("backup-remote.env"));
      if !ok { return; }
      ok := ChownIf(haveIDs, "backup-remote.env", u, g);
    }

    /** The directories and the file that the new compose mounts. */
    method PrepareMounts() returns (ok: bool)
      requires Valid() && phase == Saving(|infra|)
      modifies this`asked, this`trace, this`marks, this`phase
      ensures Valid() && phase == if ok then Saving(|infra|) else Reverting(true)
      ensures Smooth() && IdsUsable() ==> ok
      ensures !world(old(asked)).Ok? ==> !ok && asked == old(asked) + 1 && SavesOf(trace) == SavesOf(old(trace))
      ensures ok ==> TasksOf(trace) == TasksOf(old(trace)) + MountTasks(HaveIds(), lockExists)
    {
      hide Follow, Drawn, YesWasTyped, SavesOf, TasksOf, Tracks;
      var haveIDs, u, g;
      ok, haveIDs, u, g := PrepareFileMounts();
      if !ok { return; }
      ok := PrepareBackups(haveIDs, u, g);
      if !ok { return; }
      ok := PrepareRemoteEnv(haveIDs, u, g);
    }

    // ----- Past the point of no return -----

    /** The window closes before anything is started. */
    method CloseWindow()
      requires Valid() && phase == Saving(|infra|)
      modifies this`trace, this`marks, this`phase, this`revertArmed
      ensures Valid() && !revertArmed && phase == Open && TasksOf(trace) == TasksOf(old(trace))
    {
      hide Follow, Drawn, YesWasTyped, SavesOf, TasksOf;
      revertArmed := false;
      Record(disk, Committed);
    }

    method ComposeUp() returns (ok: bool)
      requires Valid() && phase == Open
      modifies this`asked, this`trace, this`marks, this`phase
      ensures Valid() && phase == if ok then Started else Over(Broken)
      ensures asked == old(asked) + 1 && (ok <==> world(old(asked)).Ok?)
      ensures TasksOf(trace) == TasksOf(old(trace))
    {
      hide Follow, Drawn, YesWasTyped, SavesOf, TasksOf;
      var answer := Ask();
      ok := answer.Ok?;
      Record(disk, Up(ok));
    }

    method Launch() returns (ok: bool)
      requires Valid() && phase == Saving(|infra|)
      modifies this`asked, this`trace, this`marks, this`phase, this`revertArmed
      ensures Valid() && phase == if ok then Started else Over(Broken)
      ensures Smooth() ==> ok
      ensures ok ==> TasksOf(trace) == TasksOf(old(trace)) + [PullProxy]
    {
      hide Follow, Drawn, YesWasTyped, SavesOf, TasksOf, Tracks;
      CloseWindow();
      ok := Attempt(PullProxy);
      if ok {
        ok := ComposeUp();
      }
    }

    /**
      Polls every two seconds until it has slept ninety: at most forty-five polls, each failed one
      followed by one sleep. Ready as soon as a poll succeeds, given up when all forty-five failed.
     */
    method WaitForHealth() returns (outcome: Answer, slept: nat)
      modifies this`asked
      ensures var polls := asked - old(asked);
              && 0 < polls <= MAX_WAIT / HEALTH_POLL && world(asked - 1) == outcome
              && PollsFail(world, old(asked), polls - 1)
              && if outcome.Ok? || outcome.Panic? then slept == HEALTH_POLL * (polls - 1)
                 else polls == MAX_WAIT / HEALTH_POLL && slept == MAX_WAIT
    {
      slept := 0;
      while true
        invariant old(asked) <= asked && slept == HEALTH_POLL * (asked - old(asked)) && slept < MAX_WAIT
        invariant PollsFail(world, old(asked), asked - old(asked))
        decreases MAX_WAIT - slept
      {
        outcome := Ask();
        if outcome.Ok? || outcome.Panic? {
          return;
        }
        slept := slept + HEALTH_POLL;
        if slept >= MAX_WAIT {
          return;
        }
      }
    }

    /** How retiring the timer ends: disabling it may fail, removing it may not, a failed reload tells its status. */
    ghost function TimerCode(k: nat): nat {
      if world(k).Panic? || !world(k + 1).Ok? || world(k + 2).Panic? then 1
      else if world(k + 2).Ok? then 0
      else childStatus
    }

    method RetireTimer() returns (code: nat)
      requires Valid() && phase == Ready
      modifies this`asked, this`trace, this`marks, this`phase
      ensures Left(code)
      ensures Smooth() ==> code == 0
      ensures code == 0 ==> TasksOf(trace) == TasksOf(old(trace)) + TimerTasks(timerInstalled)
      ensures code == (if timerInstalled then TimerCode(old(asked)) else 0)
    {
      hide SavesOf, TasksOf, Valid;
      FailuresShow();
      if timerInstalled {
        var disabled := Attempt(DisableTimer);
        if !disabled { return 1; }
        var removed := DoChore(RemoveTimer);
        if !removed { return 1; }
        var reloaded := DoChore(ReloadUnits);
        if !reloaded { return if world(asked - 1).Panic? then 1 else childStatus; }
      }
      ItIsFinished();
      return 0;
    }

    lemma FailuresShow()
      requires Valid()
      ensures childStatus != 0
    {
    }

    ghost method ItIsFinished()
      requires Valid() && phase == Ready
      modifies this`trace, this`marks, this`phase
      ensures Valid() && phase == Over(Updated) && TasksOf(trace) == TasksOf(old(trace))
    {
      hide Follow, Drawn, YesWasTyped, SavesOf, TasksOf;
      Record(disk, Finished);
    }

    method ExtractHelper() returns (ok: bool)
      requires Valid() && phase == Started
      modifies this`asked, this`trace, this`marks, this`phase
      ensures Valid() && phase == if ok then Started else Over(Broken)
      ensures Smooth() ==> ok
      ensures ok ==> TasksOf(trace) == TasksOf(old(trace)) + [MakeMount("bin"), UpdateProtocol.ExtractHelper]
    {
      hide Follow, Drawn, YesWasTyped, SavesOf, TasksOf;
      ok := DoChore(MakeMount("bin"));
      if ok {
        ok := Attempt(UpdateProtocol.ExtractHelper);
      }
    }

    /** Ready exactly when one of the forty-five polls succeeds before any panics. */
    method AwaitReady() returns (ok: bool)
      requires Valid() && phase == Started
      modifies this`asked, this`trace, this`marks, this`phase
      ensures Valid() && phase == if ok then Ready else Over(Broken)
      ensures old(asked) < asked && (ok <==> world(asked - 1).Ok?)
      ensures ok <==> exists k: nat :: k < 45 && PollsFail(world, old(asked), k) && world(old(asked) + k).Ok?
      ensures ok ==> TasksOf(trace) == TasksOf(old(trace))
    {
      hide Follow, Drawn, YesWasTyped, SavesOf, TasksOf, Next, Effect, Justified, LedTo;
      var outcome, slept := WaitForHealth();
      ok := outcome.Ok?;
      ghost var k := asked - 1 - old(asked);
      assert ok ==> PollsFail(world, old(asked), k) && world(old(asked) + k).Ok?;
      WaitIsOver(k + 1, outcome);
    }

    method Settle() returns (code: nat)
      requires Valid() && phase == Started
      modifies this`asked, this`trace, this`marks, this`phase
      ensures Left(code)
      ensures Smooth() ==> code == 0
      ensures code == 0 ==>
                TasksOf(trace) == TasksOf(old(trace)) + [MakeMount("bin"), UpdateProtocol.ExtractHelper] +
                TimerTasks(timerInstalled)
    {
      hide Follow, Drawn, YesWasTyped, SavesOf, TasksOf, Tracks;
      var ok := ExtractHelper();
      if !ok { return 1; }
      ok := AwaitReady();
      if !ok { return 1; }
      code := RetireTimer();
    }

    // ----- The exit trap -----

    /** restore: the pin first, then the infra set when its backup directory is there. */
    method Restore() returns (ok: bool)
      requires Tracks() && phase.Reverting? && infraBackup == (if phase.named then Some(currentVersion) else None)
      modifies this`asked, this`trace, this`marks, this`phase, this`disk
      ensures Tracks() && phase == Over(if ok then Restored else Stuck)
      ensures SavesOf(trace) == SavesOf(old(trace)) && old(trace) <= trace
      ensures AllOk(old(asked), 2) && EnvBackup(currentVersion) in old(disk).files ==> ok
      ensures ok && infraBackup.Some? && currentVersion in old(disk).backupDirs ==> PutBack(trace)
    {
      hide Follow, Drawn, YesWasTyped, SavesOf, TasksOf;
      ghost var before := disk;
      var how := CopyTo(EnvBackup(currentVersion), Env);
      Record(before, EnvRestored(how));
      if !how.Whole? {
        return false;
      }
      if infraBackup.Some? && infraBackup.value in disk.backupDirs {
        ok := RestoreInfra();
      } else {
        ok := true;
      }
    }

    method RestoreInfra() returns (ok: bool)
      requires Tracks() && phase == RevertingInfra
      modifies this`asked, this`trace, this`marks, this`phase, this`disk
      ensures Tracks() && phase == Over(if ok then Restored else Stuck)
      ensures SavesOf(trace) == SavesOf(old(trace)) && old(trace) <= trace && asked == old(asked) + 1
      ensures (ok <==> world(old(asked)).Ok?) && (ok ==> PutBack(trace))
    {
      hide Follow, Drawn, YesWasTyped, SavesOf, TasksOf;
      ghost var before := disk;
      var answer := Ask();
      ok := answer.Ok?;
      if ok {
        disk := disk.(files := CopyBack(disk.files, currentVersion));
        Record(before, LiveRestored(None));
      } else {
        disk := disk.(files := Damaged(disk.files, currentVersion, damage));
        Record(before, LiveRestored(Some(damage)));
      }
    }

    method DropStage()
      requires Tracks() && !Running(phase)
      modifies this`asked, this`trace, this`marks, this`phase, this`disk
      ensures Tracks() && phase == old(phase)
      ensures asked == old(asked) + 1 && SavesOf(trace) == SavesOf(old(trace)) &&
              disk.backupDirs == old(disk.backupDirs)
      ensures EnvBackup(currentVersion) in old(disk).files ==> EnvBackup(currentVersion) in disk.files
      ensures TasksOf(trace) == TasksOf(old(trace))
      ensures trace == old(trace) + [StageDropped(world(old(asked)).Ok?)]
    {
      hide Follow, Drawn, YesWasTyped, SavesOf, TasksOf;
      ghost var before := disk;
      var answer := Ask();
      if answer.Ok? {
        disk := disk.(files := Unstaged(disk.files));
      }
      Record(before, StageDropped(answer.Ok?));
    }

    /** The staging directory goes first, if there is one. */
    ghost function Dropped(asked: nat): seq<Event> reads this`stageDir {
      if stageDir then [StageDropped(world(asked).Ok?)] else []
    }

    /**
      onExit: drop the staging directory, then put things back if, and only if, the window is open and
      the run failed.
     */
    method OnExit(rc: nat)
      requires Left(rc)
      modifies this`asked, this`trace, this`marks, this`phase, this`disk, this`revertArmed
      ensures Tracks() && !revertArmed && phase.Over?
      ensures old(phase).Over? ==> phase == old(phase)
      ensures old(phase).Reverting? ==> phase == Over(Restored) || phase == Over(Stuck)
      ensures SavesOf(trace) == SavesOf(old(trace))
      ensures old(phase).Over? ==> TasksOf(trace) == TasksOf(old(trace)) && trace == old(trace) + Dropped(old(asked))
      ensures old(trace) + Dropped(old(asked)) <= trace
      ensures old(phase).Reverting? && AllOk(old(asked), 3) && EnvBackup(currentVersion) in old(disk).files ==>
              phase == Over(Restored)
      ensures old(phase) == Reverting(true) && phase == Over(Restored) && currentVersion in old(disk).backupDirs ==>
              PutBack(trace)
    {
      hide Follow, Drawn, YesWasTyped, SavesOf, TasksOf;
      if stageDir {
        DropStage();
      }
      if !revertArmed || rc == 0 {
        return;
      }
      revertArmed := false;
      var restored := Restore();
    }

    // ----- Run -----

    /** Nothing has touched the pin up to here. */
    lemma ArmedHasPin()
      requires Valid() && phase == Armed && Env in start.files && EnvPin.HasPin(start.files[Env])
      ensures Env in disk.files && EnvPin.HasPin(disk.files[Env])
    {
      TraceKeeps(plan, start, trace);
    }

    /** What is known when the first file's turn comes. */
    lemma AtFirstFile()
      requires Valid() && phase == Saving(0)
      ensures SavesOf(trace) == [] && currentVersion in disk.backupDirs
      ensures forall n: string :: SameAt(start, disk, Live(n))
    {
      TraceKeeps(plan, start, trace);
      NoSavesYet(plan, start, trace);
    }

    lemma InstallIsThere()
      requires Valid() && phase.Fetching?
      ensures SameInstall(start, disk)
    {
      TraceKeeps(plan, start, trace);
    }

    lemma EnvIsThere()
      requires Valid() && phase.Cleared? && Env in start.files
      ensures Env in disk.files
    {
      TraceKeeps(plan, start, trace);
    }

    lemma EnvBackupIsThere()
      requires Valid() && phase.Reverting?
      ensures EnvBackup(currentVersion) in disk.files
    {
      TraceKeeps(plan, start, trace);
    }

    /** The body failed with the backup directory made and these backup copies taken. */
    ghost predicate FailedWith(saves: seq<Event>) reads this {
      phase == Reverting(true) && SavesOf(trace) == saves && currentVersion in disk.backupDirs
    }

    /** The pin and then the infra set. */
    method Swap() returns (ok: bool)
      requires Valid() && phase == Armed && Env in disk.files && EnvPin.HasPin(disk.files[Env])
      modifies this`asked, this`trace, this`marks, this`phase, this`disk, this`infraBackup
      ensures Valid() && if ok then phase == Saving(|infra|) else phase.Reverting?
      ensures Smooth() ==> ok
      ensures ok ==> TasksOf(trace) == TasksOf(old(trace)) + SwapTasks(plan, start, |infra|)
      ensures |infra| == 0 && AllOk(old(asked), 4) ==>
                ok && asked == old(asked) + 4 && SavesOf(trace) == [] && currentVersion in disk.backupDirs
      ensures |infra| > 0 && AllOk(old(asked), 4) && world(old(asked) + 4).Refuse? ==>
                !ok && asked == old(asked) + 5 && FailedWith([])
      ensures |infra| > 0 && Live(infra[0]) in start.files && AllOk(old(asked), 5) && world(old(asked) + 5).CutAt? ==>
                !ok && asked == old(asked) + 6 && FailedWith([LiveSaved(infra[0], Cut(world(old(asked) + 5).kept))])
    {
      hide Follow, Drawn, TasksOf, EnvPin.HasPin;
      ok := MovePin();
      if !ok { return; }
      ok := OpenBackupDir();
      if !ok { return; }
      AtFirstFile();
      assert |infra| > 0 ==> SameAt(start, disk, Live(infra[0]));
      ok := SwapInfra();
    }

    /** From the staged files to a saved .env. */
    method Prepare() returns (ok: bool)
      requires Valid() && phase == Fetching(0) && start == disk && Env in disk.files && EnvPin.HasPin(disk.files[Env])
      modifies this`asked, this`trace, this`marks, this`phase, this`disk, this`stdin, this`revertArmed
      ensures Valid() && phase == if ok then Armed else Over(Refused)
      ensures ok ==> Env in disk.files && EnvPin.HasPin(disk.files[Env])
      ensures ok ==> TasksOf(trace) == TasksOf(old(trace)) + StageTasks(infra, |infra|)
      ensures var n := AsksToBackupDir(old(disk)) - 4;
              Supplied(old(disk), old(stdin)) && AllOk(old(asked), n) ==> ok && asked == old(asked) + n
    {
      hide Follow, Drawn, TasksOf, EnvPin.HasPin, SaysYes;
      ok := Stage();
      if !ok { return; }
      InstallIsThere();
      assert SameAt(start, disk, Live(BACKUP_SCRIPT));
      ok := BackUp();
      if !ok { return; }
      EnvIsThere();
      ok := SaveEnv();
      if ok {
        ArmedHasPin();
      }
    }

    /** From the swapped files to a healthy new version. */
    method Finish() returns (code: nat)
      requires Valid() && phase == Saving(|infra|)
      modifies this`asked, this`trace, this`marks, this`phase, this`revertArmed
      ensures Left(code)
      ensures Smooth() && IdsUsable() ==> code == 0
      ensures code == 0 ==> TasksOf(trace) == TasksOf(old(trace)) + FinishTasks(HaveIds(), lockExists, timerInstalled)
      ensures !world(old(asked)).Ok? ==>
                code == 1 && phase == Reverting(true) && asked == old(asked) + 1 &&
                    SavesOf(trace) == SavesOf(old(trace))
    {
      hide Follow, Drawn, YesWasTyped, SavesOf, TasksOf, Tracks;
      var ok := PrepareMounts();
      if !ok { return 1; }
      ok := Launch();
      if !ok { return 1; }
      code := Settle();
    }

    /** Everything Run does under the exit trap. */
    method Transact() returns (code: nat)
      requires Valid() && phase == Fetching(0) && start == disk && Env in disk.files && EnvPin.HasPin(disk.files[Env])
      modifies this`asked, this`trace, this`marks, this`phase, this`disk, this`stdin, this`infraBackup, this`revertArmed
      ensures Left(code)
      ensures Smooth() && Supplied(old(disk), old(stdin)) && IdsUsable() ==> code == 0
      ensures code == 0 ==>
              TasksOf(trace) == TasksOf(old(trace)) + StageTasks(infra, |infra|) + SwapTasks(plan, start, |infra|) +
              FinishTasks(HaveIds(), lockExists, timerInstalled)
      ensures var n := AsksToBackupDir(old(disk));
              Supplied(old(disk), old(stdin)) && AllOk(old(asked), n) && world(old(asked) + n).Refuse? ==>
                code == 1 && asked == old(asked) + n + 1 && FailedWith([])
      ensures var n := AsksToBackupDir(old(disk)) + 1;
              Supplied(old(disk), old(stdin)) && AllOk(old(asked), n) && world(old(asked) + n).CutAt?
              && |infra| > 0 && Live(infra[0]) in old(disk).files ==>
                code == 1 && asked == old(asked) + n + 1 &&
                FailedWith([LiveSaved(infra[0], Cut(world(old(asked) + n).kept))])
    {
      hide Follow, Drawn, TasksOf, SavesOf, Tracks, StageTasks, SwapTasks, FinishTasks, EnvPin.HasPin, Supplied;
      PlanIs();
      var ok := Prepare();
      if !ok { return 1; }
      ok := Swap();
      if !ok { return 1; }
      code := Finish();
    }

    /** The run ended restored, with the backup directory written back over the live files. */
    ghost predicate PutBackWith(saves: seq<Event>) reads this {
      phase == Over(Restored) && PutBack(trace) && SavesOf(trace) == saves
    }

    /** What the answers from one on foretell of a run whose staging directory has been made. */
    ghost predicate Foretold(first: nat, d: Disk, input: string) reads this {
      var n := AsksToBackupDir(d);
      && (Smooth() && Supplied(d, input) && IdsUsable() ==> phase == Over(Updated))
      && (Supplied(d, input) && RefusedAt(first, n) ==> PutBackWith([]))
      && (Supplied(d, input) && CutOffAt(first, n + 1) && |infra| > 0 && Live(infra[0]) in d.files ==>
            PutBackWith([LiveSaved(infra[0], Cut(world(first + n + 1).kept))]))
    }

    ghost method BeginTrace()
      requires Fresh()
      modifies this`plan, this`typed, this`first
      ensures Tracks() && plan == Plan(infra, currentVersion, targetImage, release) && typed == stdin && first == asked
    {
      typed, first := stdin, asked;
      plan := Plan(infra, currentVersion, targetImage, release);
    }

    method Run(arg: string) returns (report: Report, code: nat)
      requires Fresh()
      modifies this
      ensures start == old(disk)
      // Which runs get anywhere.
      ensures !report.Ended? ==> disk == old(disk) && trace == [] && !revertArmed
      ensures report.NotInstalled? <==> Live(COMPOSE) !in old(disk).files
      ensures report.NoTarget? <==> PinReadable(old(disk), old(asked)) && arg == ""
      ensures report.AlreadyOn? <==>
                PinReadable(old(disk), old(asked)) && arg != "" && EnvPin.AlreadyOn(old(disk).files[Env], arg)
      ensures report.Ended? <==>
                PinReadable(old(disk), old(asked)) && arg != "" && !EnvPin.AlreadyOn(old(disk).files[Env], arg)
      ensures (code == 0 <==> report == AlreadyOn || (report.Ended? && phase == Over(Updated))) && Told(code)
      // What a run that does is: a trace of the protocol, from the disk it found to the disk it leaves.
      ensures report.Ended? ==>
                phase.Over? && !revertArmed &&
                plan == PlanFor(infra, release, old(disk).files[Env], arg) &&
                Follow(plan, old(disk), trace) == Some(State(phase, disk))
      // What its events tell is what was answered, one answer after the other.
      ensures report.Ended? ==>
                Drawn(World(world, isTerminal, old(stdin), uid, gid), plan, old(disk), trace, marks, old(asked) + 2)
      // What it leaves behind.
      ensures report.Ended? ==> Accounted(plan, old(disk), trace, phase, disk)
      // Who waived a backup.
      ensures Answered(true) in trace ==> isTerminal && SaysYes(old(stdin))
      // When it succeeds, and where it can be made to fail.
      ensures report.Ended? && Smooth() && Supplied(old(disk), old(stdin)) && IdsUsable() ==>
              code == 0 && phase == Over(Updated)
      ensures report.Ended? && code == 0 ==>
              TasksOf(trace) == AllTasks(plan, old(disk), uid != "" && gid != "", lockExists, timerInstalled)
      ensures report.Ended? && AllOk(old(asked), 4) ==> Foretold(old(asked) + 4, old(disk), old(stdin))
    {
      hide Follow, Drawn, TasksOf, YesWasTyped, Accounted, Supplied, SaysYes, PutBackWith, EnvPin.CurrentImage,
           EnvPin.AlreadyOn,
           EnvPin.HasPin, PlanFor;
      report := Resolve(arg);
      if report.AlreadyOn? {
        return report, 0;
      }
      if !report.Ended? {
        return report, 1;
      }
      EnvPin.PinIsThere(disk.files[Env]);
      assert AllOk(old(asked), 4) ==> AllOk(asked, 2);
      code := Perform();
      assert Foretold(old(asked) + 4, old(disk), old(stdin)) ==>
          (Smooth() && Supplied(old(disk), old(stdin)) && IdsUsable() ==> phase == Over(Updated));
      hide Foretold, AllOk, Smooth;
    }

    /** An update there is to do: its trace is the protocol's, and what it leaves is accounted for. */
    method Perform() returns (code: nat)
      requires Fresh() && Env in disk.files && EnvPin.HasPin(disk.files[Env])
      modifies this`asked, this`trace, this`marks, this`phase, this`disk, this`stdin, this`infraBackup,
               this`revertArmed, this`stageDir, this`plan, this`typed, this`first
      ensures plan == Plan(infra, currentVersion, targetImage, release) && phase.Over? && !revertArmed
      ensures Follow(plan, old(disk), trace) == Some(State(phase, disk)) &&
              Accounted(plan, old(disk), trace, phase, disk)
      ensures (code == 0 <==> phase == Over(Updated)) && Told(code)
      ensures Drawn(World(world, isTerminal, old(stdin), uid, gid), plan, old(disk), trace, marks, old(asked))
      ensures code == 0 ==> TasksOf(trace) == AllTasks(plan, old(disk), HaveIds(), lockExists, timerInstalled)
      ensures Answered(true) in trace ==> isTerminal && SaysYes(old(stdin))
      ensures AllOk(old(asked), 2) ==> Foretold(old(asked) + 2, old(disk), old(stdin))
    {
      hide Follow, Drawn, TasksOf, Accounted, SaysYes, EnvPin.HasPin, AllOk, Foretold;
      BeginTrace();
      code := Update();
      Consequences(plan, start, trace, phase, disk);
    }

    /** The checks before anything runs; Ended when there is an update to do. */
    method Resolve(arg: string) returns (report: Report)
      modifies this`asked, this`currentImage, this`currentVersion, this`targetVersion, this`targetImage
      ensures report.NotInstalled? <==> Live(COMPOSE) !in disk.files
      ensures report.NoTarget? <==> PinReadable(disk, old(asked)) && arg == ""
      ensures report.AlreadyOn? <==>
              PinReadable(disk, old(asked)) && arg != "" && EnvPin.AlreadyOn(disk.files[Env], arg)
      ensures report.Ended? <==> PinReadable(disk, old(asked)) && arg != "" && !EnvPin.AlreadyOn(disk.files[Env], arg)
      ensures report.Ended? ==>
                asked == old(asked) + 2 &&
                Plan(infra, currentVersion, targetImage, release) == PlanFor(infra, release, disk.files[Env], arg)
    {
      hide EnvPin.CurrentImage, EnvPin.AfterLastColon, Text.TrimPrefix;
      if Live(COMPOSE) !in disk.files {
        return NotInstalled;
      }
      var answer := Ask();
      if !answer.Ok? {
        return NoDirectory;
      }
      answer := Ask();
      currentImage := "";
      if Env in disk.files && answer.Ok? {
        currentImage := EnvPin.ReadCurrentImage(disk.files[Env]);
      }
      if currentImage == "" {
        return NoPin;
      }
      currentVersion := EnvPin.AfterLastColon(currentImage);
      if arg == "" {
        return NoTarget;
      }
      targetVersion := Text.TrimPrefix(arg, "v");
      targetImage := EnvPin.IMAGE_PREFIX + targetVersion;
      return if currentVersion == targetVersion then AlreadyOn else Ended;
    }

    method PullImage() returns (ok: bool)
      requires Tracks() && trace == [] && phase == Begin && !revertArmed && infraBackup == None
      modifies this`asked, this`trace, this`marks, this`phase
      ensures Valid() && (if ok then phase == Fetching(0) else phase == Over(Refused))
      ensures asked == old(asked) + 1 && (ok <==> world(old(asked)).Ok?) && TasksOf(trace) == TasksOf(old(trace))
    {
      hide Follow, Drawn, YesWasTyped, SavesOf, TasksOf, Next, Effect, Justified;
      PulledIs(Met(), plan, disk, Mark());
      var answer := Ask();
      Record(disk, Pulled(answer.Ok?));
      ok := answer.Ok?;
    }

    /** The pull and the staging directory, which is made before the exit trap is set. */
    method Pull() returns (ok: bool)
      requires Tracks() && trace == [] && phase == Begin && !revertArmed && infraBackup == None && !stageDir
      modifies this`asked, this`trace, this`marks, this`phase, this`stageDir
      ensures Valid() && (if ok then phase == Fetching(0) else phase == Over(Refused)) && stageDir == ok
      ensures ok <==> AllOk(old(asked), 2)
      ensures ok ==> asked == old(asked) + 2 && TasksOf(trace) == TasksOf(old(trace)) + [MakeStage]
    {
      TwoOk(asked);
      hide Follow, Drawn, YesWasTyped, SavesOf, TasksOf, LedTo, AllOk;
      ok := PullImage();
      if ok {
        ok := DoChore(MakeStage);
      }
      stageDir := ok;
    }

    /** From the pull on. */
    method Update() returns (code: nat)
      requires Tracks() && trace == [] && phase == Begin && start == disk && !revertArmed && infraBackup == None &&
               !stageDir
      requires Env in disk.files && EnvPin.HasPin(disk.files[Env])
      modifies this`asked, this`trace, this`marks, this`phase, this`disk, this`stdin, this`infraBackup,
               this`revertArmed, this`stageDir
      ensures Tracks() && phase.Over? && !revertArmed && (code == 0 <==> phase == Over(Updated)) && Told(code)
      ensures code == 0 ==>
              TasksOf(trace) == [MakeStage] + StageTasks(infra, |infra|) + SwapTasks(plan, start, |infra|) +
              FinishTasks(HaveIds(), lockExists, timerInstalled)
      ensures AllOk(old(asked), 2) ==> Foretold(old(asked) + 2, old(disk), old(stdin))
    {
      assert TasksOf(trace) == [];
      hide Follow, Drawn, TasksOf, SavesOf, Tracks, StageTasks, SwapTasks, FinishTasks, EnvPin.HasPin, AllOk, Foretold;
      var ok := Pull();
      if !ok {
        return 1;
      }
      assert TasksOf(trace) == [MakeStage];
      PlanIs();
      code := Guarded();
    }

    /** The body and then its exit trap. */
    method Guarded() returns (code: nat)
      requires Valid() && phase == Fetching(0) && start == disk && Env in disk.files && EnvPin.HasPin(disk.files[Env])
      modifies this`asked, this`trace, this`marks, this`phase, this`disk, this`stdin, this`infraBackup,
               this`revertArmed
      ensures Tracks() && phase.Over? && !revertArmed && (code == 0 <==> phase == Over(Updated)) && Told(code)
      ensures code == 0 ==>
              TasksOf(trace) == TasksOf(old(trace)) + StageTasks(infra, |infra|) + SwapTasks(plan, start, |infra|) +
              FinishTasks(HaveIds(), lockExists, timerInstalled)
      ensures Foretold(old(asked), old(disk), old(stdin))
    {
      hide Follow, Drawn, TasksOf, SavesOf, Tracks, StageTasks, SwapTasks, FinishTasks, EnvPin.HasPin, Supplied;
      PlanIs();
      code := Transact();
      ghost var before := trace;
      if phase.Reverting? {
        EnvBackupIsThere();
      }
      OnExit(code);
      assert trace[..|before|] == before;
    }
  }

  /**
    After an update, running it again with the same argument finds it already on, unless the version
    holds a newline or a colon.
   */
  lemma SecondRunFindsItDone(infra: seq<string>, release: map<string, string>, d0: Disk, d: Disk, arg: string)
    requires Env in d0.files && EnvPin.HasPin(d0.files[Env])
    requires EnvMoved(PlanFor(infra, release, d0.files[Env], arg), d0, d)
    ensures EnvPin.AlreadyOn(d.files[Env], arg) <==>
            '\n' !in EnvPin.TargetVersion(arg) && ':' !in EnvPin.TargetVersion(arg)
  {
    EnvPin.SecondRunStops(d0.files[Env], arg);
  }

  /** What the protocol's theorems say of a run that is over. */
  lemma Consequences(p: Plan, d0: Disk, trace: seq<Event>, phase: Phase, disk: Disk)
    requires Distinct(p.infra) && Follow(p, d0, trace) == Some(State(phase, disk)) && phase.Over?
    ensures Accounted(p, d0, trace, phase, disk)
  {
    TraceKeeps(p, d0, trace);
    if phase == Over(Restored) && PriorBackupAgrees(p, d0) && WholeSaves(trace) {
      AgreeingBackupSuffices(p, d0, trace);
      if NothingNew(p, d0) {
        NothingNewSuffices(p, d0, trace);
      }
    }
    if phase == Over(Stuck) {
      StuckIsRecoverable(p, d0, trace);
    }
    assert p.infra[..|p.infra|] == p.infra;
  }

  // ----- When the revert is exact -----

  /** An install that has an update to do: its pin is not empty, and the argument names another version. */
  ghost predicate Updatable(d: Disk, arg: string) {
    && Live(COMPOSE) in d.files && Env in d.files && EnvPin.CurrentImage(d.files[Env]) != ""
    && arg != "" && !EnvPin.AlreadyOn(d.files[Env], arg)
  }

  /** How many answers a run on an install draws up to its backup directory when all are successes. */
  function AsksBefore(infra: seq<string>, d: Disk): nat {
    2 * |infra| + (if Live(BACKUP_SCRIPT) in d.files then 2 else 0) + 9
  }

  /**
    For every install with an update to do there is a run that fails in the window and whose restore
    reports success, and that run puts the install back exactly if and only if the backup directory
    it found, if any, agreed with the files it found. Run says that on an agreeing install every
    restored run is exact; so the revert is always exact exactly on agreeing installs.
   */
  method RevertAlwaysExactIff(infra: seq<string>, release: map<string, string>, ids: (string, string), isTerminal: bool,
                              stdin: string, d0: Disk, arg: string)
    returns (u: Updater)
    requires Distinct(infra) && Updatable(d0, arg) && forall n <- infra :: n in release
    requires Live(BACKUP_SCRIPT) in d0.files || (isTerminal && SaysYes(stdin))
    ensures var p := PlanFor(infra, release, d0.files[Env], arg);
            && Follow(p, d0, u.trace) == Some(State(Over(Restored), u.disk)) && WholeSaves(u.trace)
            && (Exact(d0, u.disk) <==> PriorBackupAgrees(p, d0))
  {
    hide Follow, Drawn, TasksOf, Accounted, Exact, PriorBackupAgrees, WholeSaves, SaysYes, EnvPin.AlreadyOn,
         EnvPin.CurrentImage;
    hide SavesOf, PutBack;
    var failing := AsksBefore(infra, d0);
    u := new Updater(
        k => if k == failing then Refuse else Ok, isTerminal, infra, release, map[], ids, false, false, 1, stdin, d0);
    assert u.RefusedAt(0, 4 + u.AsksToBackupDir(d0));
        assert u.PinReadable(d0, 0) && u.Supplied(d0, stdin);
    hide Updater.PinReadable, Updater.Supplied, Updater.RefusedAt, Updater.CutOffAt;
    var report, code := u.Run(arg);
    RestoreDecided(u.plan, d0, u.trace, u.disk);
  }

  lemma RestoreDecided(p: Plan, d0: Disk, trace: seq<Event>, d: Disk)
    requires Distinct(p.infra) && Follow(p, d0, trace) == Some(State(Over(Restored), d))
    requires PutBack(trace) && SavesOf(trace) == [] && Accounted(p, d0, trace, Over(Restored), d)
    ensures WholeSaves(trace) && (Exact(d0, d) <==> PriorBackupAgrees(p, d0))
  {
    hide Follow, Exact, WholeSaves;
    NoSavesAreWhole(trace);
    if !PriorBackupAgrees(p, d0) {
      StaleCopyIsInexact(p, d0, trace, d);
    }
  }

  lemma NoSavesAreWhole(trace: seq<Event>)
    requires SavesOf(trace) == []
    ensures WholeSaves(trace)
  {
    forall e | e in trace && e.LiveSaved? ensures false {
      SavesAreAll(trace, e);
    }
  }

  lemma StaleCopyIsInexact(p: Plan, d0: Disk, trace: seq<Event>, d: Disk)
    requires Distinct(p.infra) && Follow(p, d0, trace) == Some(State(Over(Restored), d))
    requires PutBack(trace) && SavesOf(trace) == [] && !PriorBackupAgrees(p, d0)
    ensures !Exact(d0, d)
  {
    hide Follow, Exact;
    var n: string :| Live(n) in d0.files && Saved(p.current, n) in d0.files &&
        d0.files[Saved(p.current, n)] != d0.files[Live(n)];
    CopyBySaves(p, d0, trace, n);
    PutBackIsInexact(p, d0, trace, n);
  }

  /**
    On every install with an update to do and a first infra file to keep, a backup copy of it cut
    short after kept characters is written back over the file it was to protect, by a run that
    reports success in restoring it.
   */
  method CutSaveIsWrittenBack(infra: seq<string>, release: map<string, string>, ids: (string, string), isTerminal: bool,
                              stdin: string, d0: Disk, arg: string, kept: nat)
    returns (u: Updater)
    requires Distinct(infra) && Updatable(d0, arg) && forall n <- infra :: n in release
    requires Live(BACKUP_SCRIPT) in d0.files || (isTerminal && SaysYes(stdin))
    requires |infra| > 0 && Live(infra[0]) in d0.files && kept < |d0.files[Live(infra[0])]|
    ensures var p := PlanFor(infra, release, d0.files[Env], arg);
            && Follow(p, d0, u.trace) == Some(State(Over(Restored), u.disk))
            && Live(infra[0]) in u.disk.files && u.disk.files[Live(infra[0])] == d0.files[Live(infra[0])][..kept]
  {
    hide Follow, Drawn, TasksOf, Accounted, SaysYes, EnvPin.AlreadyOn, EnvPin.CurrentImage, SavedCopy, RestoredForm;
    hide SavesOf, PutBack;
    var failing := AsksBefore(infra, d0) + 1;
    u := new Updater(
        k => if k == failing then CutAt(kept) else Ok, isTerminal, infra, release, map[], ids, false, false, 1,
        stdin, d0);
    assert u.CutOffAt(0, 4 + (u.AsksToBackupDir(d0) + 1));
    u.OkLater(0, 4, u.AsksToBackupDir(d0) + 1);
    assert u.PinReadable(d0, 0) && u.Supplied(d0, stdin);
    hide Updater.PinReadable, Updater.Supplied, Updater.RefusedAt, Updater.CutOffAt;
    var report, code := u.Run(arg);
    CutCopyReturns(u.plan, d0, u.trace, u.disk, infra[0], kept);
  }

  lemma CutCopyReturns(p: Plan, d0: Disk, trace: seq<Event>, d: Disk, n: string, kept: nat)
    requires Distinct(p.infra) && Follow(p, d0, trace) == Some(State(Over(Restored), d)) && PutBack(trace)
    requires SavesOf(trace) == [LiveSaved(n, Cut(kept))] && Live(n) in d0.files && kept < |d0.files[Live(n)]|
    ensures Live(n) in d.files && d.files[Live(n)] == d0.files[Live(n)][..kept]
  {
    hide Follow;
    CopyBySaves(p, d0, trace, n);
    RestoredHas(p, d0, trace);
  }
}
