/**
  The status rules of the container watcher (apps/api/internal/eventwatcher/watcher.go): what one
  container event or one reconciliation sample does to a stored status.
 */
module StatusRules {
  import opened Base
  import opened Text

  datatype AppStatus = Inactive | Running | Stopped | Error | Unhealthy

  datatype DbStatus = Creating | DbRunning | DbStopped | Failed | Upgrading | BackingUp

  /** A container event; readable says whether the handler can read the row's current status. */
  datatype Event = Event(action: string, labels: map<string, string>, readable: bool)

  /** What one snapshot of the containers says of a resource: up, gone, or in a passing phase. */
  datatype Evidence = Up(unhealthy: bool) | Gone | Unclear

  /** A status is moved by container events and by reconciliation samples. */
  datatype Step = Seen(event: Event) | Sampled(evidence: Evidence)

  const EXIT_CODE := "exitCode"

  /** A missing label reads as the empty text. */
  function Label(labels: map<string, string>, key: string): string {
    if key in labels then labels[key] else ""
  }

  predicate HasSuffix(s: string, suffix: string) { |suffix| <= |s| && s[|s| - |suffix|..] == suffix }

  predicate IsHealthEvent(action: string) { "health_status" <= action }

  // ----- Applications -----

  /** exitStatus: a signal, a clean exit and an unreadable code are stops; every other code is a crash. */
  function ExitStatus(exitCode: string): (s: AppStatus)
    ensures s == Stopped || s == Error
  {
    if exitCode == "" || exitCode == "0" then Stopped
    else
      match Atoi(exitCode)
      case None => Stopped
      case Some(code) => if 128 < code <= 128 + 64 then Stopped else Error
  }

  function ApplicationStatusForEvent(e: Event): Option<AppStatus> {
    if IsHealthEvent(e.action) then
      Some(if HasSuffix(e.action, "healthy") && !HasSuffix(e.action, "unhealthy") then Running else Unhealthy)
    else if e.action == "start" || e.action == "restart" then Some(Running)
    else if e.action == "stop" then Some(Stopped)
    else if e.action == "die" then Some(ExitStatus(Label(e.labels, EXIT_CODE)))
    else if e.action == "oom" then Some(Error)
    else None
  }

  predicate ApplyDieStatus(derived: AppStatus, current: AppStatus) {
    !(derived.Stopped? && current.Error?) && !(derived.Error? && current.Stopped?)
  }

  /** handleApplicationEvent: the stored status after one event. A guard whose read fails is skipped. */
  function HandleApp(s: AppStatus, e: Event): AppStatus {
    match ApplicationStatusForEvent(e)
    case None => s
    case Some(derived) =>
      if e.action == "die" && e.readable && !ApplyDieStatus(derived, s) then s
      else if IsHealthEvent(e.action) && e.readable && s != Running && s != Unhealthy then s
      else derived
  }

  /** The reconciler's verdict on one application: an application that never ran is left alone. */
  function ReconcileApp(s: AppStatus, v: Evidence): AppStatus {
    match v
    case Unclear => s
    case Gone => if s.Running? || s.Unhealthy? then Stopped else s
    case Up(unhealthy) => if s.Inactive? then s else if unhealthy then Unhealthy else Running
  }

  function MoveApp(s: AppStatus, t: Step): AppStatus {
    match t
    case Seen(e) => HandleApp(s, e)
    case Sampled(v) => ReconcileApp(s, v)
  }

  function AppAfter(s: AppStatus, ts: seq<Step>): AppStatus {
    if ts == [] then s else MoveApp(AppAfter(s, ts[..|ts| - 1]), ts[|ts| - 1])
  }

  // ----- Databases -----

  /** isTransitionalDBStatus: a running task owns the row. */
  predicate TaskOwned(s: DbStatus) { s.Creating? || s.Upgrading? || s.BackingUp? }

  function DatabaseStatusForEvent(e: Event): Option<DbStatus> {
    if e.action == "start" || e.action == "restart" then Some(DbRunning)
    else if e.action == "stop" then Some(DbStopped)
    else if e.action == "die" then Some(if Label(e.labels, EXIT_CODE) == "0" then DbStopped else Failed)
    else if e.action == "oom" then Some(Failed)
    else None
  }

  function HandleDb(s: DbStatus, e: Event): DbStatus {
    match DatabaseStatusForEvent(e)
    case None => s
    case Some(derived) => if e.readable && TaskOwned(s) then s else derived
  }

  function ReconcileDb(s: DbStatus, v: Evidence): DbStatus {
    match v
    case Unclear => s
    case Gone => if s.DbRunning? then DbStopped else s
    case Up(_) => if s.DbStopped? then DbRunning else s
  }

  function MoveDb(s: DbStatus, t: Step): DbStatus {
    match t
    case Seen(e) => HandleDb(s, e)
    case Sampled(v) => ReconcileDb(s, v)
  }

  function DbAfter(s: DbStatus, ts: seq<Step>): DbStatus {
    if ts == [] then s else MoveDb(DbAfter(s, ts[..|ts| - 1]), ts[|ts| - 1])
  }
}
