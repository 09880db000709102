/**
  What Docker's own words do to a status: the laws of StatusRules stated on the literal actions, exit
  codes and container states that the daemon reports, for one step and for runs.
 */
module StatusLaws {
  import opened Base
  import opened Text
  import opened StatusRules
  import StatusHistory
  import opened Watcher

  // ----- Exit codes -----

  /** The exit code that an event carries; a missing label reads as none. */
  function ExitCodeOf(e: Event): string { if "exitCode" in e.labels then e.labels["exitCode"] else "" }

  /** A clean exit and a death by one of the 64 signals are stops, any other number the program chose is a crash. */
  lemma NumberedExits(n: nat)
    requires n <= MAX_INT64
    ensures ExitStatus(Decimal(n)) == if n == 0 || 129 <= n <= 192 then Stopped else Error
    ensures n > 0 ==> ExitStatus("-" + Decimal(n)) == Error
  {
    AtoiOfDecimal(n);
    assert n > 0 ==> Decimal(n) != "0" by {
      DigitsOfDecimal(n);
      DigitsOfDecimal(0);
    }
    assert ("-" + Decimal(n))[0] == '-';
  }

  /** No code and an unreadable one are stops. */
  lemma UnreadableExits(code: string)
    requires code == "" || Atoi(code).None?
    ensures ExitStatus(code) == Stopped
  {
  }

  // ----- One step of an application -----

  predicate AppIsUp(s: AppStatus) { s in {Running, Unhealthy} }

  /** What each of Docker's actions makes of an application, and that every other action leaves it alone. */
  lemma AppEvents(s: AppStatus, e: Event)
    ensures e.action in {"start", "restart"} ==> HandleApp(s, e) == Running
    ensures e.action == "stop" ==> HandleApp(s, e) == Stopped
    ensures e.action == "oom" ==> HandleApp(s, e) == Error
    ensures e.action == "die" ==>
              HandleApp(s, e) == if e.readable && s in {Stopped, Error} then s else ExitStatus(ExitCodeOf(e))
    ensures e.action == "health_status: healthy" ==>
              HandleApp(s, e) == if e.readable && !AppIsUp(s) then s else Running
    ensures e.action == "health_status: unhealthy" ==>
              HandleApp(s, e) == if e.readable && !AppIsUp(s) then s else Unhealthy
    ensures e.action !in {"start", "restart", "stop", "oom", "die"} && !("health_status" <= e.action) ==>
              HandleApp(s, e) == s
  {
    var good, bad := "health_status: healthy", "health_status: unhealthy";
    assert good[|good| - 7..] == "healthy" && good[|good| - 9..][0] == ':';
    assert bad[|bad| - 9..] == "unhealthy";
  }

  /** A health event that ends in anything but healthy counts as unhealthy. */
  lemma OtherHealth(s: AppStatus, e: Event)
    requires "health_status" <= e.action && e.action[|e.action| - 1] != 'y'
    ensures HandleApp(s, e) == if e.readable && !AppIsUp(s) then s else Unhealthy
  {
  }

  lemma AppSamples(s: AppStatus, unhealthy: bool)
    ensures ReconcileApp(s, Unclear) == s
    ensures ReconcileApp(s, Gone) == if AppIsUp(s) then Stopped else s
    ensures ReconcileApp(s, Up(unhealthy)) == if s == Inactive then s else if unhealthy then Unhealthy else Running
  {
  }

  // ----- Runs of an application -----

  /** A step that moves nothing that is down: no start, stop or oom kill, no container found up, every status read. */
  predicate Quiet(t: Step) {
    match t
    case Sampled(v) => !v.Up?
    case Seen(e) =>
      && e.action !in {"start", "restart", "stop", "oom"}
      && (e.readable || (e.action != "die" && !("health_status" <= e.action)))
  }

  /** ... nor ends a running stretch. */
  predicate Harmless(t: Step) {
    Quiet(t) && (t.Seen? ==> t.event.action != "die") && (t.Sampled? ==> t.evidence.Unclear?)
  }

  /** ... nor says anything of its health. */
  predicate Mute(t: Step) { Harmless(t) && (t.Seen? ==> !("health_status" <= t.event.action)) }

  lemma {:induction false} DownStays(s: AppStatus, ts: seq<Step>)
    requires s in {Stopped, Error} && forall t <- ts :: Quiet(t)
    ensures AppAfter(s, ts) == s
  {
    if ts != [] {
      var n := |ts| - 1;
      assert ts[n] in ts && forall t <- ts[..n] :: t in ts;
      DownStays(s, ts[..n]);
      if ts[n].Seen? {
        AppEvents(s, ts[n].event);
      }
    }
  }

  lemma {:induction false} UpStays(s: AppStatus, ts: seq<Step>)
    requires AppIsUp(s) && forall t <- ts :: Harmless(t)
    ensures AppIsUp(AppAfter(s, ts)) && ((forall t <- ts :: Mute(t)) ==> AppAfter(s, ts) == s)
  {
    if ts != [] {
      var n := |ts| - 1;
      assert ts[n] in ts && forall t <- ts[..n] :: t in ts;
      UpStays(s, ts[..n]);
      if ts[n].Seen? {
        AppEvents(AppAfter(s, ts[..n]), ts[n].event);
      }
    }
  }

  /** The status after a run with one step picked out. */
  lemma Around(s: AppStatus, before: seq<Step>, t: Step, after: seq<Step>)
    ensures AppAfter(s, before + [t] + after) == AppAfter(MoveApp(AppAfter(s, before), t), after)
  {
    StatusHistory.StepsConcat(s, before + [t], after);
    assert (before + [t])[..|before|] == before;
  }

  /** Whatever came before, a stop is stopped and an oom kill an error, and both stay while nothing starts it. */
  lemma LastWord(s: AppStatus, before: seq<Step>, e: Event, after: seq<Step>)
    requires e.action in {"stop", "oom"} && forall t <- after :: Quiet(t)
    ensures AppAfter(s, before + [Seen(e)] + after) == if e.action == "stop" then Stopped else Error
  {
    Around(s, before, Seen(e), after);
    AppEvents(AppAfter(s, before), e);
    DownStays(MoveApp(AppAfter(s, before), Seen(e)), after);
  }

  /** A start is running; after it the first die decides, with its exit code, whatever follows while nothing starts. */
  lemma FirstDieDecides(s: AppStatus, before: seq<Step>, start: Event, mid: seq<Step>, die: Event, after: seq<Step>)
    requires start.action in {"start", "restart"} && (forall t <- mid :: Harmless(t))
    requires die.action == "die" && forall t <- after :: Quiet(t)
    ensures AppAfter(s, before + [Seen(start)]) == Running
    ensures AppAfter(s, before + [Seen(start)] + mid + [Seen(die)] + after) == ExitStatus(ExitCodeOf(die))
  {
    Around(s, before, Seen(start), mid);
    Around(s, before, Seen(start), []);
    assert before + [Seen(start)] + [] == before + [Seen(start)];
    AppEvents(AppAfter(s, before), start);
    UpStays(Running, mid);
    Around(s, before + [Seen(start)] + mid, Seen(die), after);
    AppEvents(AppAfter(s, before + [Seen(start)] + mid), die);
    DownStays(ExitStatus(ExitCodeOf(die)), after);
  }

  /** ... and while it runs the last health verdict stands. */
  lemma LastVerdictStands(s: AppStatus, before: seq<Step>, start: Event, mid: seq<Step>, e: Event, after: seq<Step>)
    requires start.action in {"start", "restart"} && (forall t <- mid :: Harmless(t))
    requires e.action in {"health_status: healthy", "health_status: unhealthy"} && forall t <- after :: Mute(t)
    ensures AppAfter(s, before + [Seen(start)] + mid + [Seen(e)] + after) ==
            if e.action == "health_status: healthy" then Running else Unhealthy
  {
    Around(s, before, Seen(start), mid);
    AppEvents(AppAfter(s, before), start);
    UpStays(Running, mid);
    Around(s, before + [Seen(start)] + mid, Seen(e), after);
    AppEvents(AppAfter(s, before + [Seen(start)] + mid), e);
    UpStays(MoveApp(AppAfter(s, before + [Seen(start)] + mid), Seen(e)), after);
  }

  // ----- Databases -----

  /** A database that no task owns: what each of Docker's actions makes of it. */
  lemma DbEvents(s: DbStatus, e: Event)
    ensures e.readable && s in {Creating, Upgrading, BackingUp} ==> HandleDb(s, e) == s
    ensures !e.readable || s !in {Creating, Upgrading, BackingUp} ==>
      && (e.action in {"start", "restart"} ==> HandleDb(s, e) == DbRunning)
      && (e.action == "stop" ==> HandleDb(s, e) == DbStopped)
      && (e.action == "oom" ==> HandleDb(s, e) == Failed)
      && (e.action == "die" ==> HandleDb(s, e) == if ExitCodeOf(e) == "0" then DbStopped else Failed)
      && (e.action !in {"start", "restart", "stop", "oom", "die"} ==> HandleDb(s, e) == s)
  {
  }

  lemma DbSamples(s: DbStatus, unhealthy: bool)
    ensures ReconcileDb(s, Unclear) == s
    ensures ReconcileDb(s, Gone) == if s == DbRunning then DbStopped else s
    ensures ReconcileDb(s, Up(unhealthy)) == if s == DbStopped then DbRunning else s
  {
  }

  /** A step that a database not owned by a task is not moved by, but for samples. */
  predicate DbQuiet(t: Step) {
    t.Seen? ==> t.event.action !in {"start", "restart", "stop", "oom", "die"}
  }

  /** The last word of Docker on a database stands, but that samples correct running and stopped into each other. */
  lemma {:induction false} DbLastWord(s: DbStatus, before: seq<Step>, e: Event, after: seq<Step>)
    requires s !in {Creating, Upgrading, BackingUp}
    requires e.action in {"start", "restart", "stop", "oom", "die"} && forall t <- after :: DbQuiet(t)
    ensures var end := DbAfter(s, before + [Seen(e)] + after);
            if e.action == "oom" || (e.action == "die" && ExitCodeOf(e) != "0") then end == Failed
            else
              && end in {DbRunning, DbStopped}
              && ((forall t <- after :: t.Seen?) ==>
                    end == if e.action in {"start", "restart"} then DbRunning else DbStopped)
  {
    var ts := before + [Seen(e)] + after;
    if after == [] {
      assert ts[..|ts| - 1] == before;
      StatusHistory.DbAfterIsByMarks(s, before);
      DbEvents(DbAfter(s, before), e);
    } else {
      var n := |after| - 1;
      assert ts[..|ts| - 1] == before + [Seen(e)] + after[..n];
      assert after[n] in after && forall t <- after[..n] :: t in after;
      DbLastWord(s, before, e, after[..n]);
      var last := DbAfter(s, before + [Seen(e)] + after[..n]);
      if after[n].Seen? {
        DbEvents(last, after[n].event);
      }
    }
  }

  // ----- What one listing of the containers says -----

  predicate OfApp(c: Container, id: string) { "application-id" in c.labels && c.labels["application-id"] == id }

  predicate OfDb(c: Container, id: string, slug: string) {
    c.name == slug || ("database-id" in c.labels && c.labels["database-id"] == id)
  }

  /** The last container of an application that is running. */
  ghost predicate LastUp(cs: seq<Container>, id: string, i: nat) {
    && i < |cs| && OfApp(cs[i], id) && cs[i].state == "running"
    && forall k | i < k < |cs| :: !(OfApp(cs[k], id) && cs[k].state == "running")
  }

  /** What a pass makes of an application with a running container, unless it never ran. */
  lemma AppFoundUp(cs: seq<Container>, id: string, row: AppRow, unhealthy: string -> bool, i: nat)
    requires LastUp(cs, id, i)
    ensures AppReconciled(IndexOf(cs), id, row, unhealthy).status ==
            if row.status == Inactive then Inactive
            else if row.commandHealth && unhealthy(cs[i].name) then Unhealthy else Running
  {
    assert cs[i] in cs && IsRunning(cs[i]) && Labelled(cs[i], APP_LABEL, id);
    var j := IndexNamesLast(cs, id);
    assert LastRunning(cs, id, i);
    assert i == j;
    hide RunningApp, LastRunning, LastUp, IndexOf;
  }

  /** What it makes of one without. */
  lemma AppNotUp(cs: seq<Container>, id: string, row: AppRow, unhealthy: string -> bool)
    requires forall c <- cs | OfApp(c, id) :: c.state != "running"
    ensures AppReconciled(IndexOf(cs), id, row, unhealthy).status ==
            if AppIsUp(row.status) && !PassingApp(cs, id) then Stopped else row.status
  {
    IndexMeansApps(cs, id);
    assert TransientApp(cs, id) <==> PassingApp(cs, id);
    assert !RunningApp(cs, id);
    hide RunningApp, TransientApp, PassingApp, IndexOf;
  }

  ghost predicate PassingApp(cs: seq<Container>, id: string) { exists c <- cs :: OfApp(c, id) && Passing(c.state) }

  /** The states in which a container is on its way to another one. */
  predicate Passing(state: string) { state in {"restarting", "removing", "created", "paused"} }

  /** The same for a database, which a container's name can stand for. */
  lemma DbByStates(cs: seq<Container>, id: string, row: DbRow)
    ensures DbReconciled(IndexOf(cs), id, row).status ==
      if exists c <- cs :: OfDb(c, id, row.slug) && c.state == "running"
      then (if row.status == DbStopped then DbRunning else row.status)
      else if exists c <- cs :: OfDb(c, id, row.slug) && Passing(c.state) then row.status
      else if row.status == DbRunning then DbStopped else row.status
  {
    IndexMeansDbs(cs, id, row.slug);
    assert RunningDb(cs, id, row.slug) <==> exists c <- cs :: OfDb(c, id, row.slug) && c.state == "running";
    assert TransientDb(cs, id, row.slug) <==> exists c <- cs :: OfDb(c, id, row.slug) && Passing(c.state);
  }

  /** Which row an event reaches: the application its label names, and only without that label the database. */
  lemma EventReaches(names: Names, e: Event, id: Id, app: AppRow, db: DbRow)
    ensures AppStep(names, Occurs(e, false), id, app) ==
            if "application-id" in e.labels && e.labels["application-id"] != ""
               && names.parse(e.labels["application-id"]) == Some(id)
            then Some(Seen(e)) else None
    ensures DbStep(names, Occurs(e, false), id, db) ==
            if ("application-id" in e.labels ==> e.labels["application-id"] == "")
               && "database-id" in e.labels && e.labels["database-id"] != ""
               && names.parse(e.labels["database-id"]) == Some(id)
            then Some(Seen(e)) else None
    ensures AppStep(names, Occurs(e, true), id, app) == None && DbStep(names, Occurs(e, true), id, db) == None
  {
  }
}
