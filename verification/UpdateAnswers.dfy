/**
  What the outside world answers an update, and what each recorded step says of the answers it drew:
  a run uses them up one after the other, and no event tells anything but what its answers were.
 */
module UpdateAnswers {
  import opened Base
  import opened UpdateProtocol
  import EnvPin
  import Text

  /** What a step meets: success, a refusal, a write cut short, or a panic in the subprocess runner. */
  datatype Answer = Ok | Refuse | CutAt(kept: nat) | Panic

  /** What a run meets: the answers in order, what is typed, and the ids the target image prints. */
  datatype World = World(answers: nat -> Answer, isTerminal: bool, typed: string, uid: string, gid: string)

  const BACKUP_SCRIPT := "scripts/backup.sh"
  const LOCAL_ONLY := "--local-only-ok"
  const HEALTH_POLL := 2
  const MAX_WAIT := 90

  predicate Contains(text: string, part: string) {
    |part| <= |text| && (part <= text || Contains(text[1..], part))
  }

  /** The part stands somewhere in the text. */
  lemma {:induction false} ContainsIff(text: string, part: string)
    ensures Contains(text, part) <==> exists a: string, b: string :: text == a + part + b
  {
    if |part| <= |text| && part <= text {
      assert text == "" + part + text[|part|..];
    } else if |part| <= |text| {
      ContainsIff(text[1..], part);
      if Contains(text[1..], part) {
        var a: string, b: string :| text[1..] == a + part + b;
        assert text == ([text[0]] + a) + part + b;
      }
      if a: string, b: string :| text == a + part + b {
        EmptyFront(a, part, b);
        assert text[1..] == a[1..] + part + b;
      }
    }
  }

  lemma EmptyFront(a: string, part: string, b: string)
    ensures a == "" ==> part <= a + part + b
  {
    assert "" + part + b == part + b;
  }

  function TrimBlanks(s: string): string { Text.Trim(s, {' ', '\t'}) }

  /** The text before the first newline. */
  function FirstLine(input: string): (line: Option<string>)
    ensures line.Some? <==> '\n' in input
    ensures line.Some? ==> line.value + "\n" <= input && '\n' !in line.value
  {
    if input == "" then None
    else if input[0] == '\n' then Some("")
    else
      match FirstLine(input[1..])
      case None => None
      case Some(line) => Some([input[0]] + line)
  }

  lemma {:induction false} FirstLineIs(line: string, rest: string)
    requires '\n' !in line
    ensures FirstLine(line + "\n" + rest) == Some(line)
  {
    var input := line + "\n" + rest;
    if line == "" {
      assert input[0] == '\n';
    } else {
      assert input[1..] == line[1..] + "\n" + rest;
      FirstLineIs(line[1..], rest);
      assert input[0] == line[0] && [line[0]] + line[1..] == line;
    }
  }

  /** The answer that lets a run go on without a backup. */
  predicate SaysYes(input: string) {
    match FirstLine(input)
    case None => false
    case Some(line) => TrimBlanks(line) == "y" || TrimBlanks(line) == "Y"
  }

  ghost predicate Blank(s: string) { forall c <- s :: c == ' ' || c == '\t' }

  /** A y or a Y between spaces and tabs, and then the end of the line, is a yes. */
  lemma YesIsTyped(a: string, letter: char, b: string, rest: string)
    requires Blank(a) && Blank(b) && letter != '\n' && letter != ' ' && letter != '\t'
    ensures SaysYes(a + [letter] + b + "\n" + rest) <==> letter == 'y' || letter == 'Y'
  {
    var line := a + [letter] + b;
    FirstLineIs(line, rest);
    Text.TrimMiddle(a, [letter], b, {' ', '\t'});
  }

  /** Two characters or more, none, and a line without an end are not. */
  lemma OthersAreNoYes(a: string, m: string, b: string, rest: string)
    requires Blank(a) && Blank(b) && '\n' !in m && |m| != 1
    requires m == "" || (m[0] !in {' ', '\t'} && m[|m| - 1] !in {' ', '\t'})
    ensures !SaysYes(a + m + b + "\n" + rest)
    ensures '\n' !in rest ==> !SaysYes(rest)
  {
    FirstLineIs(a + m + b, rest);
    Text.TrimMiddle(a, m, b, {' ', '\t'});
  }

  /** How far a copy gets. */
  function CopyFor(answer: Answer): Copy {
    match answer case Ok => Whole case CutAt(kept) => Cut(kept) case _ => Untouched
  }

  /** The first k polls from a point on neither succeed nor panic. */
  ghost predicate PollsFail(w: nat -> Answer, first: nat, k: nat) {
    forall i: nat | first <= i < first + k :: w(i).Refuse? || w(i).CutAt?
  }

  /** Tasks whose failure is a warning or nothing at all. */
  predicate Forgiven(task: Task) {
    task in {AskUid, AskGid, OwnLock, LoosenLock, PullProxy, ExtractHelper, DisableTimer}
  }

  /** What an event says of the answers from number first up to number next, which are those it drew. */
  ghost predicate Justified(w: World, p: Plan, d: Disk, e: Event, first: nat, next: nat) {
    var a := w.answers;
    match e
    case Pulled(ok) => next == first + 1 && (ok <==> a(first).Ok?)
    case Fetched(name, copy) =>
      next == first + 1 && copy == if name in p.release then CopyFor(a(first)) else Untouched
    case BackupTaken(localOnly) =>
      && next == first + 2 && a(first + 1).Ok? && Live("scripts/backup.sh") in d.files
      && (localOnly <==> a(first).Ok? && Contains(d.files[Live("scripts/backup.sh")], "--local-only-ok"))
    case BackupMissing =>
      if Live("scripts/backup.sh") in d.files
      then next == first + 2 && (a(first + 1).Refuse? || a(first + 1).CutAt?) else next == first
    case Answered(yes) => next == first && (yes <==> w.isTerminal && SaysYes(w.typed))
    case EnvSaved(copy) => next == first + 1 && copy == CopyOf(d, Env, a(first))
    case PinMoved(PinIn) => next == first + 3 && a(first).Ok? && a(first + 1).Ok? && a(first + 2).Ok?
    case PinMoved(PinNot) =>
      || (next == first + 1 && !a(first).Ok?)
      || (next == first + 2 && a(first).Ok? && (a(first + 1).Refuse? || a(first + 1).Panic?))
    case PinMoved(TmpLeft(text)) =>
      && next == first + 3 && a(first).Ok? && !(a(first + 1).Ok? && a(first + 2).Ok?)
      && Env in d.files && text == Copied(EnvPin.Repin(d.files[Env], p.image), CopyFor(a(first + 1)))
    case BackupDirMade(ok) => next == first + 1 && (ok <==> a(first).Ok?)
    case LiveSaved(name, copy) => next == first + 1 && copy == CopyFor(a(first))
    case LiveAbsent(_) => next == first
    case LiveSwapped(name, copy) => next == first + 1 && copy == CopyOf(d, Staged(name), a(first))
    case Committed => next == first
    case Up(ok) => next == first + 1 && (ok <==> a(first).Ok?)
    case Healthy(ok) =>
      && first < next <= first + 45 && PollsFail(a, first, next - 1 - first)
      && if ok then a(next - 1).Ok? else next == first + 45 && PollsFail(a, first, 45)
    case Finished => next == first
    case EnvRestored(copy) => next == first + 1 && copy == CopyOf(d, EnvBackup(p.current), a(first))
    case LiveRestored(damage) => next == first + 1 && (damage.None? <==> a(first).Ok?)
    case StageDropped(ok) => next == first + 1 && (ok <==> a(first).Ok?)
    case Chore(task, ok) =>
      if ok then !Forgiven(task) && next == first + 1 && a(first).Ok?
      else Fails(w, task, first, next)
    case Tried(task, ok) => Forgiven(task) && next == first + 1 && (ok <==> a(first).Ok?)
  }

  function CopyOf(d: Disk, src: Path, answer: Answer): Copy { if src in d.files then CopyFor(answer) else Untouched }

  /** What it takes for a task to end the run. */
  ghost predicate Fails(w: World, task: Task, first: nat, next: nat) {
    var a := w.answers;
    match task
    case RunBackup => next == first + 2 && a(first + 1).Panic?
    case Poll => first < next <= first + 45 && PollsFail(a, first, next - 1 - first) && a(next - 1).Panic?
    case Own(_) =>
      || (next == first + 1 && !a(first).Ok?)
      || (next == first && (Text.Atoi(w.uid).None? || Text.Atoi(w.gid).None?))
    case _ => next == first + 1 && if Forgiven(task) then a(first).Panic? else !a(first).Ok?
  }

  function Upto(marks: seq<nat>, first: nat): nat { if marks == [] then first else marks[|marks| - 1] }

  /**
    The events of a trace drew the answers from number first on, one event after the other; marks
    holds the number of the answer after each.
   */
  ghost predicate Drawn(w: World, p: Plan, start: Disk, trace: seq<Event>, marks: seq<nat>, first: nat) {
    if trace == [] then marks == []
    else
      var n := |trace| - 1;
      && |marks| == |trace|
      && Drawn(w, p, start, trace[..n], marks[..n], first)
      && Follow(p, start, trace[..n]).Some?
      && Justified(w, p, Follow(p, start, trace[..n]).value.disk, trace[n], Upto(marks[..n], first), marks[n])
  }

  lemma DrawnStep(w: World, p: Plan, start: Disk, trace: seq<Event>, marks: seq<nat>, first: nat, e: Event, next: nat)
    requires Drawn(w, p, start, trace, marks, first) && Follow(p, start, trace).Some?
    requires Justified(w, p, Follow(p, start, trace).value.disk, e, Upto(marks, first), next)
    ensures Drawn(w, p, start, trace + [e], marks + [next], first)
  {
    hide Justified, Follow;
    assert (trace + [e])[..|trace|] == trace && (marks + [next])[..|trace|] == marks;
  }

  /** Each event of a run tells what its own answers were, and drew none that another drew. */
  lemma {:induction false} EventDrew(w: World, p: Plan, start: Disk, trace: seq<Event>, marks: seq<nat>, first: nat,
      i: nat)
    requires Drawn(w, p, start, trace, marks, first) && i < |trace|
    ensures |marks| == |trace| && Follow(p, start, trace[..i]).Some?
    ensures Justified(w, p, Follow(p, start, trace[..i]).value.disk, trace[i], Upto(marks[..i], first), marks[i])
    ensures first <= Upto(marks[..i], first) <= marks[i] <= marks[|marks| - 1]
  {
    hide Follow;
    var n := |trace| - 1;
    if n > 0 {
      var j := if i < n then i else n - 1;
      EventDrew(w, p, start, trace[..n], marks[..n], first, j);
      assert trace[..n][..j] == trace[..j] && marks[..n][..j] == marks[..j];
    }
  }

  /** What must have happened for a run to be where it is. */
  ghost predicate Passed(trace: seq<Event>, ph: Phase) {
    && (!ph.Begin? && ph != Over(Refused) ==> Pulled(true) in trace)
    && (ph.Started? || ph.Ready? || ph == Over(Updated) ==> Up(true) in trace)
    && (ph.Ready? || ph == Over(Updated) ==> Healthy(true) in trace)
  }

  lemma PassedStep(p: Plan, d: Disk, trace: seq<Event>, ph: Phase, e: Event)
    requires Passed(trace, ph) && Next(p, d, ph, e).Some?
    ensures Passed(trace + [e], Next(p, d, ph, e).value)
  {
    assert forall x :: x in trace + [e] <==> x in trace || x == e;
  }

  lemma {:induction false} HasPassed(p: Plan, start: Disk, trace: seq<Event>)
    requires Follow(p, start, trace).Some?
    ensures Passed(trace, Follow(p, start, trace).value.phase)
  {
    if trace != [] {
      var n := |trace| - 1;
      HasPassed(p, start, trace[..n]);
      var s := Follow(p, start, trace[..n]).value;
      PassedStep(p, s.disk, trace[..n], s.phase, trace[n]);
      assert trace == trace[..n] + [trace[n]];
    }
  }

  /**
    An update that went through pulled its image, had `docker compose up -d` succeed, and then had a poll
    answered, the last of at most forty-five, after which it asked no more; each by an answer of its own.
   */
  lemma UpdatedMeansHealthy(w: World, p: Plan, start: Disk, trace: seq<Event>, marks: seq<nat>, first: nat)
      returns (pulled: nat, up: nat, healthy: nat)
    requires Drawn(w, p, start, trace, marks, first)
    requires Follow(p, start, trace).Some? && Follow(p, start, trace).value.phase == Over(Updated)
    ensures pulled < |trace| && trace[pulled] == Pulled(true)
    ensures up < |trace| && trace[up] == Up(true) && healthy < |trace| && trace[healthy] == Healthy(true)
    ensures |marks| == |trace| && marks[pulled] > 0 && marks[up] > 0 && marks[healthy] > 0
    ensures w.answers(marks[pulled] - 1).Ok? && w.answers(marks[up] - 1).Ok? && w.answers(marks[healthy] - 1).Ok?
    ensures var polls := marks[healthy] - Upto(marks[..healthy], first);
            0 < polls <= 45 && PollsFail(w.answers, Upto(marks[..healthy], first), polls - 1)
  {
    HasPassed(p, start, trace);
    hide Follow, Drawn;
    pulled :| pulled < |trace| && trace[pulled] == Pulled(true);
    up :| up < |trace| && trace[up] == Up(true);
    healthy :| healthy < |trace| && trace[healthy] == Healthy(true);
    hide Justified, PollsFail;
    WasAnswered(w, p, start, trace, marks, first, pulled);
    WasAnswered(w, p, start, trace, marks, first, up);
    WasAnswered(w, p, start, trace, marks, first, healthy);
  }

  lemma WasAnswered(w: World, p: Plan, start: Disk, trace: seq<Event>, marks: seq<nat>, first: nat, i: nat)
    requires Drawn(w, p, start, trace, marks, first) && i < |trace|
    requires trace[i] == Pulled(true) || trace[i] == Up(true) || trace[i] == Healthy(true)
    ensures |marks| == |trace| && marks[i] > 0 && w.answers(marks[i] - 1).Ok?
    ensures trace[i].Healthy? ==>
              var polls := marks[i] - Upto(marks[..i], first);
              0 < polls <= 45 && PollsFail(w.answers, Upto(marks[..i], first), polls - 1)
  {
    EventDrew(w, p, start, trace, marks, first, i);
    hide Follow, Drawn;
  }

  // ----- What single events come to -----

  lemma ChoreIs(w: World, p: Plan, d: Disk, ph: Phase, task: Task, ok: bool, first: nat)
    requires Running(ph) && !ph.Asking? && !ph.Begin? && !Forgiven(task) && !task.RunBackup? && !task.Poll?
    requires ok <==> w.answers(first).Ok?
    ensures Next(p, d, ph, Chore(task, ok)) == Some(if ok then ph else Failed(ph)) && Effect(p, d, Chore(task, ok)) == d
    ensures Justified(w, p, d, Chore(task, ok), first, first + 1)
  {
  }

  lemma AttemptIs(w: World, p: Plan, d: Disk, ph: Phase, task: Task, first: nat)
    requires Running(ph) && !ph.Asking? && !ph.Begin? && Forgiven(task)
    ensures var a := w.answers(first); var e := if a.Panic? then Chore(task, false) else Tried(task, a.Ok?);
      && Next(p, d, ph, e) == Some(if a.Panic? then Failed(ph) else ph) && Effect(p, d, e) == d
      && Justified(w, p, d, e, first, first + 1)
  {
  }

  lemma PulledIs(w: World, p: Plan, d: Disk, first: nat)
    ensures var e := Pulled(w.answers(first).Ok?);
      && Next(p, d, Begin, e) == Some(if e.ok then Fetching(0) else Over(Refused)) && Effect(p, d, e) == d
      && Justified(w, p, d, e, first, first + 1)
  {
  }

  lemma FetchedIs(w: World, p: Plan, d: Disk, k: nat, first: nat)
    requires k < |p.infra|
    ensures var name := p.infra[k];
      var e := Fetched(name, if name in p.release then CopyFor(w.answers(first)) else Untouched);
      && Next(p, d, Fetching(k), e) == Some(if e.copy.Whole? then Fetching(k + 1) else Over(Refused))
      && Effect(p, d, e) == (if name in p.release then Write(d, Staged(name), p.release[name], e.copy) else d)
      && Justified(w, p, d, e, first, first + 1)
  {
  }

  /** The three ways in which running the backup script can end. */
  lemma BackupRunIs(w: World, p: Plan, d: Disk, first: nat)
    requires Live("scripts/backup.sh") in d.files
    ensures var a := w.answers(first + 1); var localOnly := w.answers(first).Ok? &&
        Contains(d.files[Live("scripts/backup.sh")], "--local-only-ok");
      var e := if a.Ok? then BackupTaken(localOnly) else if a.Panic? then Chore(RunBackup, false) else BackupMissing;
      && Next(p, d, Fetching(|p.infra|), e) ==
         Some(if a.Ok? then Cleared else if a.Panic? then Over(Refused) else Asking)
      && Effect(p, d, e) == d && Justified(w, p, d, e, first, first + 2)
  {
  }

  lemma SavedIs(w: World, p: Plan, d: Disk, k: nat, first: nat)
    requires k < |p.infra| && Live(p.infra[k]) in d.files
    ensures var e := LiveSaved(p.infra[k], CopyFor(w.answers(first)));
      && Next(p, d, Saving(k), e) == Some(if e.copy.Whole? then Swapping(k) else Reverting(true))
      && Effect(p, d, e) == CopyFile(d, Live(e.name), Saved(p.current, e.name), e.copy)
      && Justified(w, p, d, e, first, first + 1)
  {
  }

  lemma AbsentIs(w: World, p: Plan, d: Disk, k: nat, first: nat)
    requires k < |p.infra| && Live(p.infra[k]) !in d.files
    ensures var e := LiveAbsent(p.infra[k]);
      Next(p, d, Saving(k), e) == Some(Swapping(k)) && Effect(p, d, e) == d && Justified(w, p, d, e, first, first)
  {
  }

  lemma SwappedIs(w: World, p: Plan, d: Disk, k: nat, copy: Copy, first: nat)
    requires k < |p.infra| && copy == CopyOf(d, Staged(p.infra[k]), w.answers(first))
    ensures var e := LiveSwapped(p.infra[k], copy);
      && Next(p, d, Swapping(k), e) == Some(if copy.Whole? then Saving(k + 1) else Reverting(true))
      && Effect(p, d, e) == CopyFile(d, Staged(e.name), Live(e.name), copy)
      && Justified(w, p, d, e, first, first + 1)
  {
  }

  lemma PinMovedIs(w: World, p: Plan, d: Disk, first: nat)
    requires Env in d.files && w.answers(first).Ok? && !CopyFor(w.answers(first + 1)).Untouched?
    ensures var how := CopyFor(w.answers(first + 1));
      var text := EnvPin.Repin(d.files[Env], p.image);
      var e := PinMoved(if how.Whole? && w.answers(first + 2).Ok? then PinIn else TmpLeft(Copied(text, how)));
      && Next(p, d, Armed, e) == Some(if e.write.PinIn? then Pinned else Reverting(false))
      && Effect(p, d, e) == WritePin(d, p.image, e.write) && Justified(w, p, d, e, first, first + 3)
  {
    hide EnvPin.Repin;
  }

  /** The ways in which the wait for health can end, after so many polls. */
  lemma WaitIs(w: World, p: Plan, d: Disk, polls: nat, first: nat)
    requires 0 < polls <= 45 && PollsFail(w.answers, first, polls - 1)
    requires var a := w.answers(first + polls - 1); !a.Ok? && !a.Panic? ==> polls == 45
    ensures var a := w.answers(first + polls - 1); var e := if a.Panic? then Chore(Poll, false) else Healthy(a.Ok?);
      && Next(p, d, Started, e) == Some(if a.Ok? then Ready else Over(Broken))
      && Effect(p, d, e) == d && Justified(w, p, d, e, first, first + polls)
  {
  }

  // ----- What a run has done besides -----

  /** The task that an event carried out, or tried. */
  function TaskOf(e: Event): seq<Task> {
    match e
    case Chore(task, ok) => if ok then [task] else []
    case Tried(task, _) => [task]
    case _ => []
  }

  function TasksOf(trace: seq<Event>): seq<Task> {
    if trace == [] then [] else TasksOf(trace[..|trace| - 1]) + TaskOf(trace[|trace| - 1])
  }

  lemma TasksOfStep(trace: seq<Event>, e: Event)
    ensures TasksOf(trace + [e]) == TasksOf(trace) + TaskOf(e)
  {
    assert (trace + [e])[..|trace|] == trace;
  }

  // What an update that goes through does, in order.

  function StageTasks(infra: seq<string>, n: nat): seq<Task>
    requires n <= |infra|
  {
    if n == 0 then [] else StageTasks(infra, n - 1) + [MakeDir(Staged(infra[n - 1]))]
  }

  /** The scripts are made executable. */
  function ModeTask(name: string): seq<Task> {
    if name in {"scripts/backup.sh", "scripts/restore.sh", "scripts/update.sh"} then [AddExec(name)] else []
  }

  /** One infra file: room for the copy of the one there is, room for the new one, and its mode if it is a script. */
  function SwapTask(version: string, name: string, there: bool): seq<Task> {
    (if there then [MakeDir(Saved(version, name))] else []) + ([MakeDir(Live(name))] + ModeTask(name))
  }

  function SwapTasks(p: Plan, start: Disk, n: nat): seq<Task>
    requires n <= |p.infra|
  {
    if n == 0 then []
    else
      SwapTasks(p, start, n - 1) + SwapTask(p.current, p.infra[n - 1], Live(p.infra[n - 1]) in start.files)
  }

  function OwnTask(haveIds: bool, name: string): seq<Task> { if haveIds then [Own(name)] else [] }

  /** The directories and the file that the new compose mounts, owned by the container's user when its ids are known. */
  function MountTasks(haveIds: bool, lockExists: bool): seq<Task> {
    [MakeMount("filemounts"), AskUid, AskGid] + OwnTask(haveIds, "filemounts") +
    [MakeMount("backups")] + OwnTask(haveIds, "backups") +
    (if haveIds && lockExists then [OwnLock, LoosenLock] else []) +
    [Touch("backup-remote.env"), Restrict("backup-remote.env")] + OwnTask(haveIds, "backup-remote.env")
  }

  function TimerTasks(timerInstalled: bool): seq<Task> {
    if timerInstalled then [DisableTimer, RemoveTimer, ReloadUnits] else []
  }

  /** From the swapped files on. */
  function FinishTasks(haveIds: bool, lockExists: bool, timerInstalled: bool): seq<Task> {
    MountTasks(haveIds, lockExists) + [PullProxy, MakeMount("bin"), ExtractHelper] + TimerTasks(timerInstalled)
  }

  /** Everything; haveIds says that the image tells the ids of its user. */
  function AllTasks(p: Plan, start: Disk, haveIds: bool, lockExists: bool, timerInstalled: bool): seq<Task> {
    [MakeStage] + StageTasks(p.infra, |p.infra|) + SwapTasks(p, start, |p.infra|) +
    FinishTasks(haveIds, lockExists, timerInstalled)
  }
}
