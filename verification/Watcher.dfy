/**
  The container watcher (apps/api/internal/eventwatcher/watcher.go): the index built over a container
  listing, the reconciliation pass, and the dispatch of container events to stored rows.
 */
module Watcher {
  import opened Base
  import opened StatusRules
  import StatusHistory

  const APP_LABEL := "application-id"
  const DB_LABEL := "database-id"

  /** One entry of Docker's container listing; state is Docker's State value. */
  datatype Container = Container(name: string, state: string, labels: map<string, string>)

  datatype Index = Index(
    runningApps: map<string, string>, runningDBs: set<string>, runningNames: set<string>,
    transientApps: set<string>, transientDBs: set<string>, transientNames: set<string>)

  /** commandHealth says that the application's health check type is "command". */
  datatype AppRow = AppRow(status: AppStatus, commandHealth: bool)

  datatype DbRow = DbRow(slug: string, status: DbStatus)

  /** A row id: a UUID, kept as the number it stands for. */
  type Id = nat

  predicate IsRunning(c: Container) { c.state == "running" }

  predicate IsTransient(c: Container) { c.state in ["restarting", "removing", "created", "paused"] }

  predicate Labelled(c: Container, key: string, id: string) { key in c.labels && c.labels[key] == id }

  // ----- The container index -----

  const NOTHING := Index(map[], {}, {}, {}, {}, {})

  function LabelSet(c: Container, key: string): set<string> {
    if key in c.labels then {c.labels[key]} else {}
  }

  /** What one container adds; a settled stopped container adds nothing. */
  function Add(idx: Index, c: Container): Index {
    if IsRunning(c) then
      idx.(runningNames := idx.runningNames + {c.name},
           runningApps := if APP_LABEL in c.labels then idx.runningApps[c.labels[APP_LABEL] := c.name]
               else idx.runningApps,
           runningDBs := idx.runningDBs + LabelSet(c, DB_LABEL))
    else if IsTransient(c) then
      idx.(transientNames := idx.transientNames + {c.name},
           transientApps := idx.transientApps + LabelSet(c, APP_LABEL),
           transientDBs := idx.transientDBs + LabelSet(c, DB_LABEL))
    else idx
  }

  function IndexOf(cs: seq<Container>): Index {
    if cs == [] then NOTHING else Add(IndexOf(cs[..|cs| - 1]), cs[|cs| - 1])
  }

  method BuildContainerIndex(containers: seq<Container>) returns (idx: Index)
    ensures idx == IndexOf(containers)
  {
    var runningApps: map<string, string> := map[];
    var runningDBs: set<string>, runningNames: set<string> := {}, {};
    var transientApps: set<string>, transientDBs: set<string>, transientNames: set<string> := {}, {}, {};
    for i := 0 to |containers|
      invariant Index(runningApps, runningDBs, runningNames, transientApps, transientDBs, transientNames)
             == IndexOf(containers[..i])
    {
      var c := containers[i];
      assert containers[..i + 1][..i] == containers[..i];
      if c.state == "running" {
        runningNames := runningNames + {c.name};
        if APP_LABEL in c.labels {
          runningApps := runningApps[c.labels[APP_LABEL] := c.name];
        }
        if DB_LABEL in c.labels {
          runningDBs := runningDBs + {c.labels[DB_LABEL]};
        }
      } else if IsTransient(c) {
        transientNames := transientNames + {c.name};
        if APP_LABEL in c.labels {
          transientApps := transientApps + {c.labels[APP_LABEL]};
        }
        if DB_LABEL in c.labels {
          transientDBs := transientDBs + {c.labels[DB_LABEL]};
        }
      }
    }
    assert containers[..|containers|] == containers;
    idx := Index(runningApps, runningDBs, runningNames, transientApps, transientDBs, transientNames);
  }

  ghost predicate RunningApp(cs: seq<Container>, id: string) {
    exists c <- cs :: IsRunning(c) && Labelled(c, APP_LABEL, id)
  }

  ghost predicate TransientApp(cs: seq<Container>, id: string) {
    exists c <- cs :: IsTransient(c) && Labelled(c, APP_LABEL, id)
  }

  /** A database is known by its label, or by a container named after its slug. */
  predicate BelongsTo(c: Container, id: string, slug: string) { Labelled(c, DB_LABEL, id) || c.name == slug }

  ghost predicate RunningDb(cs: seq<Container>, id: string, slug: string) {
    exists c <- cs :: IsRunning(c) && BelongsTo(c, id, slug)
  }

  ghost predicate TransientDb(cs: seq<Container>, id: string, slug: string) {
    exists c <- cs :: IsTransient(c) && BelongsTo(c, id, slug)
  }

  /** The index means what it says: each entry stands for a container in that state that carries the label. */
  lemma {:induction false} IndexMeansApps(cs: seq<Container>, id: string)
    ensures id in IndexOf(cs).runningApps <==> RunningApp(cs, id)
    ensures id in IndexOf(cs).transientApps <==> TransientApp(cs, id)
  {
    if cs != [] {
      var before, c := cs[..|cs| - 1], cs[|cs| - 1];
      IndexMeansApps(before, id);
      assert forall d :: d in cs <==> d in before || d == c;
    }
  }

  /** The same for databases, which a container's name may also stand for. */
  lemma {:induction false} IndexMeansDbs(cs: seq<Container>, id: string, slug: string)
    ensures id in IndexOf(cs).runningDBs || slug in IndexOf(cs).runningNames <==> RunningDb(cs, id, slug)
    ensures id in IndexOf(cs).transientDBs || slug in IndexOf(cs).transientNames <==> TransientDb(cs, id, slug)
  {
    if cs != [] {
      var before, c := cs[..|cs| - 1], cs[|cs| - 1];
      IndexMeansDbs(before, id, slug);
      assert forall d :: d in cs <==> d in before || d == c;
    }
  }

  ghost predicate LastRunning(cs: seq<Container>, id: string, i: nat) {
    && i < |cs| && IsRunning(cs[i]) && Labelled(cs[i], APP_LABEL, id)
    && forall k | i < k < |cs| :: !(IsRunning(cs[k]) && Labelled(cs[k], APP_LABEL, id))
  }

  /** The name kept for a running application is that of its last running container. */
  lemma {:induction false} IndexNamesLast(cs: seq<Container>, id: string) returns (i: nat)
    requires RunningApp(cs, id)
    ensures LastRunning(cs, id, i) && id in IndexOf(cs).runningApps && IndexOf(cs).runningApps[id] == cs[i].name
    ensures forall j: nat | LastRunning(cs, id, j) :: j == i
  {
    var n := |cs| - 1;
    if IsRunning(cs[n]) && Labelled(cs[n], APP_LABEL, id) {
      i := n;
    } else {
      i := IndexNamesLast(cs[..n], id);
      assert LastRunning(cs, id, i);
      forall j: nat | LastRunning(cs, id, j) ensures j == i {
        assert LastRunning(cs[..n], id, j);
      }
    }
  }

  /** A container that is neither up nor in a passing phase contributes nothing, wherever it is listed. */
  lemma {:induction false} SettledSaysNothing(a: seq<Container>, c: Container, b: seq<Container>)
    requires !IsRunning(c) && !IsTransient(c)
    ensures IndexOf(a + [c] + b) == IndexOf(a + b)
  {
    var with, without := a + [c] + b, a + b;
    if b == [] {
      assert with[..|with| - 1] == a && without == a;
    } else {
      var init := b[..|b| - 1];
      SettledSaysNothing(a, c, init);
      assert with[..|with| - 1] == a + [c] + init && without[..|without| - 1] == a + init;
    }
  }

  // ----- What a snapshot says of one row -----

  /** unhealthy says which containers ContainerHealth reports unhealthy; a failed inspection reports nothing. */
  function AppEvidence(idx: Index, id: string, row: AppRow, unhealthy: string -> bool): Evidence {
    if id in idx.runningApps then Up(row.commandHealth && unhealthy(idx.runningApps[id]))
    else if id in idx.transientApps then Unclear
    else Gone
  }

  function DbEvidence(idx: Index, id: string, row: DbRow): Evidence {
    if id in idx.runningDBs || row.slug in idx.runningNames then Up(false)
    else if id in idx.transientDBs || row.slug in idx.transientNames then Unclear
    else Gone
  }

  function AppReconciled(idx: Index, id: string, row: AppRow, unhealthy: string -> bool): AppRow {
    row.(status := ReconcileApp(row.status, AppEvidence(idx, id, row, unhealthy)))
  }

  function DbReconciled(idx: Index, id: string, row: DbRow): DbRow {
    row.(status := ReconcileDb(row.status, DbEvidence(idx, id, row)))
  }

  /** What a pass makes of a row whose write may be refused. */
  function AppPass(idx: Index, id: string, row: AppRow, unhealthy: string -> bool, refused: bool): AppRow {
    if refused then row else AppReconciled(idx, id, row, unhealthy)
  }

  function DbPass(idx: Index, id: string, row: DbRow, refused: bool): DbRow {
    if refused then row else DbReconciled(idx, id, row)
  }

  /** An application row and the containers tell the same story; one that never ran is exempt. */
  ghost predicate AppAgrees(cs: seq<Container>, id: string, row: AppRow, unhealthy: string -> bool) {
    && (RunningApp(cs, id) ==>
          || row.status.Inactive?
          || exists i: nat | LastRunning(cs, id, i) ::
               row.status == if row.commandHealth && unhealthy(cs[i].name) then Unhealthy else Running)
    && (!RunningApp(cs, id) && !TransientApp(cs, id) ==> row.status != Running && row.status != Unhealthy)
  }

  /** A running or stopped database row and the containers tell the same story; other states belong to someone else. */
  ghost predicate DbAgrees(cs: seq<Container>, id: string, row: DbRow) {
    if RunningDb(cs, id, row.slug) then row.status != DbStopped
    else TransientDb(cs, id, row.slug) || row.status != DbRunning
  }

  /** A pass leaves exactly the agreeing rows as they are, and every row it rewrites agrees afterwards. */
  lemma AppPassSettles(cs: seq<Container>, id: string, row: AppRow, unhealthy: string -> bool)
    ensures AppReconciled(IndexOf(cs), id, row, unhealthy) == row <==> AppAgrees(cs, id, row, unhealthy)
    ensures AppAgrees(cs, id, AppReconciled(IndexOf(cs), id, row, unhealthy), unhealthy)
  {
    IndexMeansApps(cs, id);
    if RunningApp(cs, id) {
      var i := IndexNamesLast(cs, id);
    }
  }

  lemma DbPassSettles(cs: seq<Container>, id: string, row: DbRow)
    ensures DbReconciled(IndexOf(cs), id, row) == row <==> DbAgrees(cs, id, row)
    ensures DbAgrees(cs, id, DbReconciled(IndexOf(cs), id, row))
    ensures var after := DbReconciled(IndexOf(cs), id, row).status;
            after == row.status || (row.status == DbRunning && after == DbStopped) ||
                (row.status == DbStopped && after == DbRunning)
  {
    IndexMeansDbs(cs, id, row.slug);
  }

  /** A second pass over the same listing and the same health answers finds every row as it should be. */
  lemma PassIsIdempotent(cs: seq<Container>, id: string, app: AppRow, db: DbRow, unhealthy: string -> bool)
    ensures var once := AppReconciled(IndexOf(cs), id, app, unhealthy);
            AppReconciled(IndexOf(cs), id, once, unhealthy) == once
    ensures var once := DbReconciled(IndexOf(cs), id, db); DbReconciled(IndexOf(cs), id, once) == once
  {
    AppPassSettles(cs, id, app, unhealthy);
    AppPassSettles(cs, id, AppReconciled(IndexOf(cs), id, app, unhealthy), unhealthy);
    DbPassSettles(cs, id, db);
    DbPassSettles(cs, id, DbReconciled(IndexOf(cs), id, db));
  }

  // ----- A pass over all rows -----

  /** The first n listed ids. */
  ghost function IdSet(order: seq<Id>, n: nat): set<Id>
    requires n <= |order|
  {
    if n == 0 then {} else IdSet(order, n - 1) + {order[n - 1]}
  }

  ghost predicate Distinct(order: seq<Id>, n: nat)
    requires n <= |order|
  {
    n > 0 ==> Distinct(order, n - 1) && order[n - 1] !in IdSet(order, n - 1)
  }

  /** A listing gives every stored row once. */
  ghost predicate Lists<T>(order: seq<Id>, rows: map<Id, T>) {
    Distinct(order, |order|) && IdSet(order, |order|) == rows.Keys
  }

  lemma {:induction false} IdSetGrows(order: seq<Id>, i: nat, n: nat)
    requires i < n <= |order| && Distinct(order, n)
    ensures order[i] in IdSet(order, n) && order[i] !in IdSet(order, i)
  {
    if i + 1 < n {
      IdSetGrows(order, i, n - 1);
    }
  }

  /** The listed rows that a pass wants otherwise. */
  ghost function Wanting<T>(was: map<Id, T>, goal: map<Id, T>, order: seq<Id>, n: nat): set<Id>
    requires n <= |order|
  {
    if n == 0 then {}
    else
      var id := order[n - 1];
      if id in was && id in goal && goal[id] != was[id]
      then Wanting(was, goal, order, n - 1) + {id}
      else Wanting(was, goal, order, n - 1)
  }

  /** How many of the first n rows a pass wants otherwise. */
  ghost function WantingCount<T>(was: map<Id, T>, goal: map<Id, T>, order: seq<Id>, n: nat): nat
    requires n <= |order|
  {
    if n == 0 then 0
    else
      var id := order[n - 1];
      WantingCount(was, goal, order, n - 1) + if id in was && id in goal && goal[id] != was[id] then 1 else 0
  }

  lemma {:induction false} WantingCounts<T>(was: map<Id, T>, goal: map<Id, T>, order: seq<Id>, n: nat)
    requires n <= |order| && Distinct(order, n)
    ensures WantingCount(was, goal, order, n) == |Wanting(was, goal, order, n)|
    ensures forall id :: id in Wanting(was, goal, order, n) <==>
            id in IdSet(order, n) && id in was && id in goal && goal[id] != was[id]
  {
    if n > 0 {
      WantingCounts(was, goal, order, n - 1);
    }
  }

  /** How far a pass has come: the rows in done are judged, except that refused ones kept their status. */
  ghost predicate PassUpTo<T>(was: map<Id, T>, now: map<Id, T>, goal: map<Id, T>, refused: set<Id>, done: set<Id>) {
    && done <= was.Keys == now.Keys == goal.Keys
    && forall id <- was :: now[id] == if id in done && id !in refused then goal[id] else was[id]
  }

  lemma PassStep<T>(was: map<Id, T>, now: map<Id, T>, goal: map<Id, T>, refused: set<Id>, done: set<Id>,
                    id: Id, next: map<Id, T>)
    requires PassUpTo(was, now, goal, refused, done) && id in was && id !in done
    requires next == now[id := if id in refused then was[id] else goal[id]]
    ensures PassUpTo(was, next, goal, refused, done + {id})
  {
  }

  ghost function Disagreeing(cs: seq<Container>, text: Id -> string, rows: map<Id, AppRow>,
      unhealthy: string -> bool): set<Id> {
    set id | id in rows && !AppAgrees(cs, text(id), rows[id], unhealthy)
  }

  ghost function DisagreeingDbs(cs: seq<Container>, text: Id -> string, rows: map<Id, DbRow>): set<Id> {
    set id | id in rows && !DbAgrees(cs, text(id), rows[id])
  }

  /**
    A finished pass leaves every row it could write in agreement and needed a write for exactly the
    rows that were not.
   */
  lemma AppPassResult(cs: seq<Container>, text: Id -> string, was: map<Id, AppRow>, now: map<Id, AppRow>,
      unhealthy: string -> bool,
                      goal: map<Id, AppRow>, refused: set<Id>, order: seq<Id>)
    requires goal == map id | id in was :: AppReconciled(IndexOf(cs), text(id), was[id], unhealthy)
    requires PassUpTo(was, now, goal, refused, was.Keys) && Lists(order, was)
    ensures WantingCount(was, goal, order, |order|) == |Disagreeing(cs, text, was, unhealthy)|
    ensures forall id <- was ::
      && now[id] == AppPass(IndexOf(cs), text(id), was[id], unhealthy, id in refused)
      && (id !in refused ==> AppAgrees(cs, text(id), now[id], unhealthy))
  {
    forall id <- was
      ensures AppAgrees(cs, text(id), goal[id], unhealthy) &&
              (goal[id] == was[id] <==> AppAgrees(cs, text(id), was[id], unhealthy))
    {
      AppPassSettles(cs, text(id), was[id], unhealthy);
    }
    WantingCounts(was, goal, order, |order|);
    assert Wanting(was, goal, order, |order|) == Disagreeing(cs, text, was, unhealthy);
  }

  lemma DbPassResult(cs: seq<Container>, text: Id -> string, was: map<Id, DbRow>, now: map<Id, DbRow>,
                     goal: map<Id, DbRow>, refused: set<Id>, order: seq<Id>)
    requires goal == map id | id in was :: DbReconciled(IndexOf(cs), text(id), was[id])
    requires PassUpTo(was, now, goal, refused, was.Keys) && Lists(order, was)
    ensures WantingCount(was, goal, order, |order|) == |DisagreeingDbs(cs, text, was)|
    ensures forall id <- was ::
      && now[id] == DbPass(IndexOf(cs), text(id), was[id], id in refused)
      && (id !in refused ==> DbAgrees(cs, text(id), now[id]))
  {
    forall id <- was
      ensures DbAgrees(cs, text(id), goal[id]) && (goal[id] == was[id] <==> DbAgrees(cs, text(id), was[id]))
    {
      DbPassSettles(cs, text(id), was[id]);
    }
    WantingCounts(was, goal, order, |order|);
    assert Wanting(was, goal, order, |order|) == DisagreeingDbs(cs, text, was);
  }

  // ----- Runs of the watcher -----

  /** How labels are read as row ids, and row ids written as labels. */
  datatype Names = Names(parse: string -> Option<Id>, text: Id -> string)

  /** What the watcher does next: it handles an event, or makes a pass; listings and writes may fail. */
  datatype Happening =
    | Occurs(event: Event, refused: bool)
    | Passes(containers: Option<seq<Container>>, appsListed: bool, dbsListed: bool, unhealthy: string -> bool,
             refusedApps: set<Id>, refusedDbs: set<Id>)

  /** The step by which a happening moves an application's status, if it moves it. */
  function AppStep(names: Names, h: Happening, id: Id, row: AppRow): Option<Step> {
    match h
    case Occurs(e, refused) =>
      var key := Label(e.labels, APP_LABEL);
      if key != "" && names.parse(key) == Some(id) && !refused then Some(Seen(e)) else None
    case Passes(cs, listed, _, unhealthy, refused, _) =>
      if cs.Some? && listed && id !in refused
      then Some(Sampled(AppEvidence(IndexOf(cs.value), names.text(id), row, unhealthy))) else None
  }

  function DbStep(names: Names, h: Happening, id: Id, row: DbRow): Option<Step> {
    match h
    case Occurs(e, refused) =>
      var key := Label(e.labels, DB_LABEL);
      if Label(e.labels, APP_LABEL) == "" && key != "" && names.parse(key) == Some(id) && !refused
      then Some(Seen(e)) else None
    case Passes(cs, appsListed, dbsListed, _, _, refused) =>
      if cs.Some? && appsListed && dbsListed && id !in refused
      then Some(Sampled(DbEvidence(IndexOf(cs.value), names.text(id), row))) else None
  }

  function AppMoved(names: Names, h: Happening, id: Id, row: AppRow): AppRow {
    match AppStep(names, h, id, row) case None => row case Some(t) => row.(status := MoveApp(row.status, t))
  }

  function DbMoved(names: Names, h: Happening, id: Id, row: DbRow): DbRow {
    match DbStep(names, h, id, row) case None => row case Some(t) => row.(status := MoveDb(row.status, t))
  }

  /** One row through a run. */
  function AppRun(names: Names, hs: seq<Happening>, id: Id, row: AppRow): AppRow {
    if hs == [] then row
    else AppMoved(names, hs[|hs| - 1], id, AppRun(names, hs[..|hs| - 1], id, row))
  }

  function DbRun(names: Names, hs: seq<Happening>, id: Id, row: DbRow): DbRow {
    if hs == [] then row
    else DbMoved(names, hs[|hs| - 1], id, DbRun(names, hs[..|hs| - 1], id, row))
  }

  function Listed(t: Option<Step>): seq<Step> { match t case None => [] case Some(step) => [step] }

  /** The steps a run takes a row by; what the row needs for them never changes. */
  function AppSteps(names: Names, hs: seq<Happening>, id: Id, row: AppRow): seq<Step> {
    if hs == [] then [] else AppSteps(names, hs[..|hs| - 1], id, row) + Listed(AppStep(names, hs[|hs| - 1], id, row))
  }

  function DbSteps(names: Names, hs: seq<Happening>, id: Id, row: DbRow): seq<Step> {
    if hs == [] then [] else DbSteps(names, hs[..|hs| - 1], id, row) + Listed(DbStep(names, hs[|hs| - 1], id, row))
  }

  /** A pass over the applications moves each by its step; a pass that never came to them moves none. */
  lemma AppsPassed(names: Names, h: Happening, was: map<Id, AppRow>, now: map<Id, AppRow>)
    requires h.Passes? && now.Keys == was.Keys
    requires if h.containers.Some? && h.appsListed
             then forall id <- was :: now[id] ==
                    AppPass(IndexOf(h.containers.value), names.text(id), was[id], h.unhealthy, id in h.refusedApps)
             else now == was
    ensures forall id <- was :: now[id] == AppMoved(names, h, id, was[id])
  {
  }

  lemma DbsPassed(names: Names, h: Happening, was: map<Id, DbRow>, now: map<Id, DbRow>)
    requires h.Passes? && now.Keys == was.Keys
    requires if h.containers.Some? && h.appsListed && h.dbsListed
             then forall id <- was :: now[id] ==
                    DbPass(IndexOf(h.containers.value), names.text(id), was[id], id in h.refusedDbs)
             else now == was
    ensures forall id <- was :: now[id] == DbMoved(names, h, id, was[id])
  {
  }

  /** The status of an application after any run is that after its steps. */
  lemma {:induction false} RunMovesApp(names: Names, hs: seq<Happening>, id: Id, row: AppRow)
    ensures AppRun(names, hs, id, row) == row.(status := AppAfter(row.status, AppSteps(names, hs, id, row)))
  {
    hide MoveApp, AppEvidence;
    if hs != [] {
      var n := |hs| - 1;
      RunMovesApp(names, hs[..n], id, row);
      var before, now := AppSteps(names, hs[..n], id, row), AppRun(names, hs[..n], id, row);
      SameAppStep(names, hs[n], id, row, now);
      var t := AppStep(names, hs[n], id, row);
      assert t.Some? ==> (before + [t.value])[..|before|] == before;
      assert t.None? ==> before + [] == before;
    }
  }

  lemma SameAppStep(names: Names, h: Happening, id: Id, a: AppRow, b: AppRow)
    requires a.commandHealth == b.commandHealth
    ensures AppStep(names, h, id, a) == AppStep(names, h, id, b)
  {
  }

  lemma {:induction false} RunMovesDb(names: Names, hs: seq<Happening>, id: Id, row: DbRow)
    ensures DbRun(names, hs, id, row) == row.(status := DbAfter(row.status, DbSteps(names, hs, id, row)))
  {
    hide MoveDb, DbEvidence;
    if hs != [] {
      var n := |hs| - 1;
      RunMovesDb(names, hs[..n], id, row);
      var before, now := DbSteps(names, hs[..n], id, row), DbRun(names, hs[..n], id, row);
      SameDbStep(names, hs[n], id, row, now);
      var t := DbStep(names, hs[n], id, row);
      assert t.Some? ==> (before + [t.value])[..|before|] == before;
      assert t.None? ==> before + [] == before;
    }
  }

  lemma SameDbStep(names: Names, h: Happening, id: Id, a: DbRow, b: DbRow)
    requires a.slug == b.slug
    ensures DbStep(names, h, id, a) == DbStep(names, h, id, b)
  {
  }

  /** So the status that any run of events and passes leaves, whatever fails on the way, has the closed form. */
  lemma AppRunClosedForm(names: Names, hs: seq<Happening>, id: Id, row: AppRow)
    requires row.status != Inactive
    ensures AppRun(names, hs, id, row).status
         == StatusHistory.ClosedForm(row.status, StatusHistory.Marks(AppSteps(names, hs, id, row)))
  {
    RunMovesApp(names, hs, id, row);
    StatusHistory.AppClosedForm(row.status, AppSteps(names, hs, id, row));
  }

  lemma DbRunClosedForm(names: Names, hs: seq<Happening>, id: Id, row: DbRow)
    requires !TaskOwned(row.status)
    ensures DbRun(names, hs, id, row).status
         == StatusHistory.DbClosedForm(row.status, StatusHistory.DbMarks(DbSteps(names, hs, id, row)))
  {
    RunMovesDb(names, hs, id, row);
    StatusHistory.DbHasClosedForm(row.status, DbSteps(names, hs, id, row));
  }

  // ----- The watcher -----

  /**
    The stored rows are the state; parse reads a label as a row id and text is pgUUIDToString.
   */
  class Watcher {
    var apps: map<Id, AppRow>
    var dbs: map<Id, DbRow>
    const parse: string -> Option<Id>
    const text: Id -> string

    /** Every stored row has moved as a happening moves it, and none has come or gone. */
    ghost predicate MovedBy(h: Happening, wasApps: map<Id, AppRow>, wasDbs: map<Id, DbRow>)
      reads this
    {
      && apps.Keys == wasApps.Keys && dbs.Keys == wasDbs.Keys
      && (forall id <- wasApps :: apps[id] == AppMoved(Names(parse, text), h, id, wasApps[id]))
      && (forall id <- wasDbs :: dbs[id] == DbMoved(Names(parse, text), h, id, wasDbs[id]))
    }

    lemma Passed(h: Happening, wasApps: map<Id, AppRow>, wasDbs: map<Id, DbRow>)
      requires h.Passes? && apps.Keys == wasApps.Keys && dbs.Keys == wasDbs.Keys
      requires if h.containers.Some? && h.appsListed
               then forall id <- wasApps :: apps[id] ==
                      AppPass(IndexOf(h.containers.value), text(id), wasApps[id], h.unhealthy, id in h.refusedApps)
               else apps == wasApps
      requires if h.containers.Some? && h.appsListed && h.dbsListed
               then forall id <- wasDbs :: dbs[id] ==
                      DbPass(IndexOf(h.containers.value), text(id), wasDbs[id], id in h.refusedDbs)
               else dbs == wasDbs
      ensures MovedBy(h, wasApps, wasDbs)
    {
      AppsPassed(Names(parse, text), h, wasApps, apps);
      DbsPassed(Names(parse, text), h, wasDbs, dbs);
    }

    constructor (parse: string -> Option<Id>, text: Id -> string, apps: map<Id, AppRow>, dbs: map<Id, DbRow>)
      ensures this.parse == parse && this.text == text && this.apps == apps && this.dbs == dbs
    {
      this.parse, this.text, this.apps, this.dbs := parse, text, apps, dbs;
    }

    /** A refused write is logged and leaves the row; a row that is gone refuses too. */
    method UpdateAppStatus(id: Id, s: AppStatus, refused: bool)
      modifies this`apps
      ensures if refused || id !in old(apps) then apps == old(apps)
              else apps == old(apps)[id := old(apps)[id].(status := s)]
    {
      if refused || id !in apps {
        return;
      }
      apps := apps[id := apps[id].(status := s)];
    }

    method UpdateDatabaseStatus(id: Id, s: DbStatus, refused: bool)
      modifies this`dbs
      ensures if refused || id !in old(dbs) then dbs == old(dbs)
              else dbs == old(dbs)[id := old(dbs)[id].(status := s)]
    {
      if refused || id !in dbs {
        return;
      }
      dbs := dbs[id := dbs[id].(status := s)];
    }

    /** One application of a pass; tried says that a write was attempted. */
    method ReconcileOneApp(idx: Index, id: Id, unhealthy: string -> bool, refused: bool, ghost want: AppRow)
        returns (tried: bool)
      requires id in apps && want == AppReconciled(idx, text(id), apps[id], unhealthy)
      modifies this`apps
      ensures apps == old(apps)[id := if refused then old(apps)[id] else want]
      ensures tried <==> want != old(apps)[id]
    {
      tried := false;
      var app := apps[id];
      if text(id) !in idx.runningApps {
        if text(id) in idx.transientApps {
          return;
        }
        if app.status == Running || app.status == Unhealthy {
          UpdateAppStatus(id, Stopped, refused);
          tried := true;
        }
        return;
      }
      var desired := Running;
      if app.commandHealth && unhealthy(idx.runningApps[text(id)]) {
        desired := Unhealthy;
      }
      if app.status != desired && app.status in {Stopped, Error, Running, Unhealthy} {
        UpdateAppStatus(id, desired, refused);
        tried := true;
      }
    }

    method ReconcileOneDb(idx: Index, id: Id, refused: bool, ghost want: DbRow) returns (tried: bool)
      requires id in dbs && want == DbReconciled(idx, text(id), dbs[id])
      modifies this`dbs
      ensures dbs == old(dbs)[id := if refused then old(dbs)[id] else want]
      ensures tried <==> want != old(dbs)[id]
    {
      tried := false;
      var db := dbs[id];
      var isRunning := text(id) in idx.runningDBs || db.slug in idx.runningNames;
      if !isRunning && (text(id) in idx.transientDBs || db.slug in idx.transientNames) {
        return;
      }
      if db.status == DbRunning && !isRunning {
        UpdateDatabaseStatus(id, DbStopped, refused);
        tried := true;
      } else if db.status == DbStopped && isRunning {
        UpdateDatabaseStatus(id, DbRunning, refused);
        tried := true;
      }
    }

    /** The application half of a pass; the listed rows are the stored ones. goal is what the pass wants of each row. */
    method ReconcileApps(idx: Index, order: seq<Id>, unhealthy: string -> bool, refused: set<Id>,
        ghost goal: map<Id, AppRow>)
      returns (attempts: nat)
      requires Lists(order, apps)
      requires goal == map id | id in apps :: AppReconciled(idx, text(id), apps[id], unhealthy)
      modifies this`apps
      ensures PassUpTo(old(apps), apps, goal, refused, old(apps).Keys)
      ensures attempts == WantingCount(old(apps), goal, order, |order|)
    {
      hide AppReconciled;
      attempts := 0;
      ghost var was := apps;
      for i := 0 to |order|
        invariant PassUpTo(was, apps, goal, refused, IdSet(order, i))
        invariant attempts == WantingCount(was, goal, order, i)
      {
        var id := order[i];
        IdSetGrows(order, i, |order|);
        ghost var before := apps;
        var tried := ReconcileOneApp(idx, id, unhealthy, id in refused, goal[id]);
        PassStep(was, before, goal, refused, IdSet(order, i), id, apps);
        attempts := if tried then attempts + 1 else attempts;
      }
    }

    method ReconcileDbs(idx: Index, order: seq<Id>, refused: set<Id>, ghost goal: map<Id, DbRow>)
      returns (attempts: nat)
      requires Lists(order, dbs)
      requires goal == map id | id in dbs :: DbReconciled(idx, text(id), dbs[id])
      modifies this`dbs
      ensures PassUpTo(old(dbs), dbs, goal, refused, old(dbs).Keys)
      ensures attempts == WantingCount(old(dbs), goal, order, |order|)
    {
      hide DbReconciled;
      attempts := 0;
      ghost var was := dbs;
      for i := 0 to |order|
        invariant PassUpTo(was, dbs, goal, refused, IdSet(order, i))
        invariant attempts == WantingCount(was, goal, order, i)
      {
        var id := order[i];
        IdSetGrows(order, i, |order|);
        ghost var before := dbs;
        var tried := ReconcileOneDb(idx, id, id in refused, goal[id]);
        PassStep(was, before, goal, refused, IdSet(order, i), id, dbs);
        attempts := if tried then attempts + 1 else attempts;
      }
    }

    /**
      One pass. Each listing may fail and ends the pass where it is; a refused write leaves its row.
      attempts counts the writes tried: one for each row that disagrees with the containers.
     */
    method Reconcile(containers: Option<seq<Container>>, appOrder: Option<seq<Id>>, dbOrder: Option<seq<Id>>,
                     unhealthy: string -> bool, refusedApps: set<Id>, refusedDbs: set<Id>)
      returns (attempts: nat)
      requires appOrder.Some? ==> Lists(appOrder.value, apps)
      requires dbOrder.Some? ==> Lists(dbOrder.value, dbs)
      modifies this
      ensures apps.Keys == old(apps).Keys && dbs.Keys == old(dbs).Keys
      ensures containers.None? || appOrder.None? ==> apps == old(apps) && attempts == 0
      ensures containers.None? || appOrder.None? || dbOrder.None? ==> dbs == old(dbs)
      ensures containers.Some? && appOrder.Some? ==>
        forall id <- old(apps) ::
          && apps[id] == AppPass(IndexOf(containers.value), text(id), old(apps)[id], unhealthy, id in refusedApps)
          && (id !in refusedApps ==> AppAgrees(containers.value, text(id), apps[id], unhealthy))
      ensures containers.Some? && appOrder.Some? && dbOrder.Some? ==>
        forall id <- old(dbs) ::
          && dbs[id] == DbPass(IndexOf(containers.value), text(id), old(dbs)[id], id in refusedDbs)
          && (id !in refusedDbs ==> DbAgrees(containers.value, text(id), dbs[id]))
      ensures containers.Some? && appOrder.Some? && dbOrder.Some? ==>
        attempts == |Disagreeing(containers.value, text, old(apps), unhealthy)| +
            |DisagreeingDbs(containers.value, text, old(dbs))|
      ensures MovedBy(Passes(containers, appOrder.Some?, dbOrder.Some?, unhealthy, refusedApps, refusedDbs),
              old(apps), old(dbs))
    {
      hide AppMoved, DbMoved, AppAgrees, DbAgrees, AppPass, DbPass;
      attempts := 0;
      ghost var h := Passes(containers, appOrder.Some?, dbOrder.Some?, unhealthy, refusedApps, refusedDbs);
      if containers.None? {
        Passed(h, old(apps), old(dbs));
        return;
      }
      var cs := containers.value;
      var idx := BuildContainerIndex(cs);
      if appOrder.None? {
        Passed(h, old(apps), old(dbs));
        return;
      }
      ghost var goal := map id | id in apps :: AppReconciled(idx, text(id), apps[id], unhealthy);
      attempts := ReconcileApps(idx, appOrder.value, unhealthy, refusedApps, goal);
      AppPassResult(cs, text, old(apps), apps, unhealthy, goal, refusedApps, appOrder.value);
      if dbOrder.None? {
        Passed(h, old(apps), old(dbs));
        return;
      }
      ghost var dbGoal := map id | id in dbs :: DbReconciled(idx, text(id), dbs[id]);
      var more;
      more := ReconcileDbs(idx, dbOrder.value, refusedDbs, dbGoal);
      DbPassResult(cs, text, old(dbs), dbs, dbGoal, refusedDbs, dbOrder.value);
      attempts := attempts + more;
      Passed(h, old(apps), old(dbs));
    }

    method HandleApplicationEvent(e: Event, key: string, refused: bool)
      modifies this`apps
      ensures match parse(key)
              case None => apps == old(apps)
              case Some(id) =>
                if refused || id !in old(apps) then apps == old(apps)
                else apps == old(apps)[id := old(apps)[id].(status := MoveApp(old(apps)[id].status, Seen(e)))]
    {
      var parsed := parse(key);
      if parsed.None? {
        return;
      }
      var id := parsed.value;
      var derived := ApplicationStatusForEvent(e);
      if derived.None? {
        return;
      }
      var current := if e.readable && id in apps then Some(apps[id].status) else None;
      if e.action == "die" && current.Some? && !ApplyDieStatus(derived.value, current.value) {
        return;
      }
      if IsHealthEvent(e.action) && current.Some? && current.value != Running && current.value != Unhealthy {
        return;
      }
      UpdateAppStatus(id, derived.value, refused);
    }

    method HandleDatabaseEvent(e: Event, key: string, refused: bool)
      modifies this`dbs
      ensures match parse(key)
              case None => dbs == old(dbs)
              case Some(id) =>
                if refused || id !in old(dbs) then dbs == old(dbs)
                else dbs == old(dbs)[id := old(dbs)[id].(status := MoveDb(old(dbs)[id].status, Seen(e)))]
    {
      var parsed := parse(key);
      if parsed.None? {
        return;
      }
      var id := parsed.value;
      var derived := DatabaseStatusForEvent(e);
      if derived.None? {
        return;
      }
      if e.readable && id in dbs && TaskOwned(dbs[id].status) {
        return;
      }
      UpdateDatabaseStatus(id, derived.value, refused);
    }

    /** An application label takes the event; only without one does a database label. Any other container is ignored. */
    method HandleEvent(e: Event, refused: bool)
      modifies this
      ensures Label(e.labels, APP_LABEL) != "" || Label(e.labels, DB_LABEL) == "" ==> dbs == old(dbs)
      ensures Label(e.labels, APP_LABEL) == "" ==> apps == old(apps)
      ensures Label(e.labels, APP_LABEL) != "" && !refused ==>
        forall id <- old(apps) :: id in apps && apps[id].status ==
          if parse(Label(e.labels, APP_LABEL)) == Some(id) then MoveApp(old(apps)[id].status, Seen(e))
              else old(apps)[id].status
      ensures Label(e.labels, APP_LABEL) == "" && Label(e.labels, DB_LABEL) != "" && !refused ==>
        forall id <- old(dbs) :: id in dbs && dbs[id].status ==
          if parse(Label(e.labels, DB_LABEL)) == Some(id) then MoveDb(old(dbs)[id].status, Seen(e))
              else old(dbs)[id].status
      ensures refused ==> apps == old(apps) && dbs == old(dbs)
      ensures MovedBy(Occurs(e, refused), old(apps), old(dbs))
    {
      if Label(e.labels, APP_LABEL) != "" {
        HandleApplicationEvent(e, Label(e.labels, APP_LABEL), refused);
      } else if Label(e.labels, DB_LABEL) != "" {
        HandleDatabaseEvent(e, Label(e.labels, DB_LABEL), refused);
      }
    }
  }
}
