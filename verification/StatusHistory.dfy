/** The closed form of an application's and a database's status after any mix of events and samples. */
module StatusHistory {
  import opened Base
  import opened StatusRules

  // ----- What a step says of an application -----

  /**
    Decides: the application is in this status, whatever came before. Ends: a running stretch ended
    in this status. Checks: a running stretch is seen in this status. Silent: nothing is said.
    An event that finds the stored status unreadable skips the handler's guards, so it decides.
   */
  datatype Mark = Decides(status: AppStatus) | Ends(status: AppStatus) | Checks(status: AppStatus) | Silent

  function MarkOf(t: Step): Mark {
    match t
    case Sampled(Up(unhealthy)) => Decides(if unhealthy then Unhealthy else Running)
    case Sampled(Gone) => Ends(Stopped)
    case Sampled(Unclear) => Silent
    case Seen(e) =>
      match ApplicationStatusForEvent(e)
      case None => Silent
      case Some(v) =>
        if !e.readable then Decides(v)
        else if IsHealthEvent(e.action) then Checks(v)
        else if e.action == "die" then Ends(v)
        else Decides(v)
  }

  function Marks(ts: seq<Step>): (ms: seq<Mark>)
    ensures |ms| == |ts| && forall i | 0 <= i < |ts| :: ms[i] == MarkOf(ts[i])
  {
    seq(|ts|, i requires 0 <= i < |ts| => MarkOf(ts[i]))
  }

  predicate IsUpStatus(s: AppStatus) { s == Running || s == Unhealthy }

  lemma MarkStatuses(t: Step)
    ensures var m := MarkOf(t);
            && (m.Decides? ==> m.status != Inactive)
            && (m.Ends? ==> m.status == Stopped || m.status == Error)
            && (m.Checks? ==> IsUpStatus(m.status))
  {
  }

  /** An application that ever ran moves by the mark alone. */
  function MoveByMark(s: AppStatus, m: Mark): AppStatus {
    match m
    case Decides(v) => v
    case Ends(v) => if IsUpStatus(s) then v else s
    case Checks(v) => if IsUpStatus(s) then v else s
    case Silent => s
  }

  function AfterMarks(s: AppStatus, ms: seq<Mark>): AppStatus {
    if ms == [] then s else MoveByMark(AfterMarks(s, ms[..|ms| - 1]), ms[|ms| - 1])
  }

  /** The guards of the event handler and of the reconciler amount to the four marks. */
  lemma MoveIsByMark(s: AppStatus, t: Step)
    requires s != Inactive
    ensures MoveApp(s, t) == MoveByMark(s, MarkOf(t)) && MoveApp(s, t) != Inactive
  {
  }

  lemma {:induction false} AfterIsByMarks(s: AppStatus, ts: seq<Step>)
    requires s != Inactive
    ensures AppAfter(s, ts) == AfterMarks(s, Marks(ts)) && AppAfter(s, ts) != Inactive
  {
    if ts != [] {
      var n := |ts| - 1;
      AfterIsByMarks(s, ts[..n]);
      assert Marks(ts)[..n] == Marks(ts[..n]);
      MoveIsByMark(AppAfter(s, ts[..n]), ts[n]);
    }
  }

  // ----- The closed form of an application -----

  /** The first mark that ends a running stretch. */
  function FirstEnd(ms: seq<Mark>): (r: Option<nat>)
    ensures r.Some? ==> r.value < |ms| && ms[r.value].Ends?
  {
    if ms == [] then None
    else if FirstEnd(ms[..|ms| - 1]).Some? then FirstEnd(ms[..|ms| - 1])
    else if ms[|ms| - 1].Ends? then Some(|ms| - 1) else None
  }

  function LastCheck(ms: seq<Mark>): (r: Option<nat>)
    ensures r.Some? ==> r.value < |ms| && ms[r.value].Checks?
  {
    if ms == [] then None
    else if ms[|ms| - 1].Checks? then Some(|ms| - 1) else LastCheck(ms[..|ms| - 1])
  }

  function LastDecision(ms: seq<Mark>): (r: Option<nat>)
    ensures r.Some? ==> r.value < |ms| && ms[r.value].Decides?
  {
    if ms == [] then None
    else if ms[|ms| - 1].Decides? then Some(|ms| - 1) else LastDecision(ms[..|ms| - 1])
  }

  /** The first end comes before every other end. */
  lemma {:induction false} FirstEndIsFirst(ms: seq<Mark>, k: nat)
    requires k < |ms| && ms[k].Ends?
    ensures FirstEnd(ms).Some? && FirstEnd(ms).value <= k
  {
    if k < |ms| - 1 {
      FirstEndIsFirst(ms[..|ms| - 1], k);
    }
  }

  lemma {:induction false} LastCheckIsLast(ms: seq<Mark>, k: nat)
    requires k < |ms| && ms[k].Checks?
    ensures LastCheck(ms).Some? && k <= LastCheck(ms).value
  {
    if !ms[|ms| - 1].Checks? {
      LastCheckIsLast(ms[..|ms| - 1], k);
    }
  }

  lemma {:induction false} LastDecisionIsLast(ms: seq<Mark>, k: nat)
    requires k < |ms| && ms[k].Decides?
    ensures LastDecision(ms).Some? && k <= LastDecision(ms).value
  {
    if !ms[|ms| - 1].Decides? {
      LastDecisionIsLast(ms[..|ms| - 1], k);
    }
  }

  /**
    What a stretch in which nothing decides makes of a status: one that is down stays; one that is
    up takes the first end, else the last check, else stays.
   */
  function Settled(s: AppStatus, ms: seq<Mark>): AppStatus {
    if !IsUpStatus(s) then s
    else
      match FirstEnd(ms)
      case Some(j) => ms[j].status
      case None => match LastCheck(ms) case Some(j) => ms[j].status case None => s
  }

  /** The last decision, settled by what follows it. */
  function ClosedForm(s: AppStatus, ms: seq<Mark>): AppStatus {
    match LastDecision(ms)
    case Some(i) => Settled(ms[i].status, ms[i + 1..])
    case None => Settled(s, ms)
  }

  /** Every mark carries a status of its kind. */
  ghost predicate Sensible(ms: seq<Mark>) {
    forall i | 0 <= i < |ms| ::
      && (ms[i].Ends? ==> !IsUpStatus(ms[i].status))
      && (ms[i].Checks? ==> IsUpStatus(ms[i].status))
  }

  lemma SettledMove(s: AppStatus, ms: seq<Mark>, n: nat)
    requires |ms| == n + 1 && Sensible(ms) && !ms[n].Decides?
    ensures Settled(s, ms) == MoveByMark(Settled(s, ms[..n]), ms[n])
  {
  }

  lemma {:induction false} MarksClosedForm(s: AppStatus, ms: seq<Mark>)
    requires Sensible(ms)
    ensures AfterMarks(s, ms) == ClosedForm(s, ms)
  {
    if ms != [] {
      var n := |ms| - 1;
      MarksClosedForm(s, ms[..n]);
      if !ms[n].Decides? {
        match LastDecision(ms[..n]) {
          case None => SettledMove(s, ms, n);
          case Some(i) =>
            assert ms[i + 1..][..n - i - 1] == ms[..n][i + 1..];
            SettledMove(ms[i].status, ms[i + 1..], n - i - 1);
        }
      }
    }
  }

  /**
    The status of an application that ever ran, after any mix of events and samples: the last
    deciding step decides. A stop is stopped and an oom kill is an error whatever follows; a start
    or a container found up takes the first die or absence after it, else the last later health
    verdict, else stays.
   */
  lemma AppClosedForm(s: AppStatus, ts: seq<Step>)
    requires s != Inactive
    ensures AppAfter(s, ts) == ClosedForm(s, Marks(ts))
  {
    AfterIsByMarks(s, ts);
    forall i | 0 <= i < |ts| ensures Sensible([Marks(ts)[i]]) {
      MarkStatuses(ts[i]);
    }
    assert forall i | 0 <= i < |ts| :: Marks(ts)[i] == [Marks(ts)[i]][0];
    MarksClosedForm(s, Marks(ts));
  }

  /** The events that move an application that never ran. */
  predicate Wakes(t: Step) { t.Seen? && (MarkOf(t).Decides? || MarkOf(t).Ends?) }

  ghost predicate FirstWakes(ts: seq<Step>, j: nat) {
    j < |ts| && Wakes(ts[j]) && forall k | 0 <= k < j :: !Wakes(ts[k])
  }

  lemma {:induction false} StaysInactive(ts: seq<Step>)
    requires forall k | 0 <= k < |ts| :: !Wakes(ts[k])
    ensures AppAfter(Inactive, ts) == Inactive
  {
    if ts != [] {
      StaysInactive(ts[..|ts| - 1]);
      assert !Wakes(ts[|ts| - 1]);
    }
  }

  lemma {:induction false} StepsConcat(s: AppStatus, a: seq<Step>, b: seq<Step>)
    ensures AppAfter(s, a + b) == AppAfter(AppAfter(s, a), b)
  {
    if b == [] {
      assert a + b == a;
    } else {
      StepsConcat(s, a, b[..|b| - 1]);
      assert (a + b)[..|a + b| - 1] == a + b[..|b| - 1];
    }
  }

  /**
    An application that never ran stays inactive, whatever readable health events and samples say,
    until the first event that decides or ends; from that event's status on it is an active one.
   */
  lemma InactiveWakes(ts: seq<Step>, j: nat)
    requires FirstWakes(ts, j)
    ensures AppAfter(Inactive, ts[..j]) == Inactive
    ensures MarkOf(ts[j]).status != Inactive
    ensures AppAfter(Inactive, ts) == AppAfter(MarkOf(ts[j]).status, ts[j + 1..])
  {
    StaysInactive(ts[..j]);
    MarkStatuses(ts[j]);
    assert ts[..j + 1][..j] == ts[..j];
    assert ts == ts[..j + 1] + ts[j + 1..];
    StepsConcat(Inactive, ts[..j + 1], ts[j + 1..]);
  }

  /**
    Docker's die and stop of one requested stop, from any status and with any exit code: die then
    stop ends stopped, and stop then die does exactly when the die can read the status or its exit
    code is no crash.
   */
  lemma StopIsStoppedIff(s: AppStatus, die: Event, stop: Event)
    requires die.action == "die" && stop.action == "stop"
    ensures AppAfter(s, [Seen(die), Seen(stop)]) == Stopped
    ensures AppAfter(s, [Seen(stop), Seen(die)]) == Stopped
       <==> die.readable || ExitStatus(Label(die.labels, EXIT_CODE)) == Stopped
  {
    assert [Seen(die), Seen(stop)][..1] == [Seen(die)] && [Seen(stop), Seen(die)][..1] == [Seen(stop)];
  }

  // ----- The closed form of a database -----

  /** Reports: an event stands for this status. Finds: a sample tells up or gone. */
  datatype DbMark = Reports(status: DbStatus) | Finds(status: DbStatus) | Nothing

  function DbMarkOf(t: Step): DbMark {
    match t
    case Seen(e) => (match DatabaseStatusForEvent(e) case None => Nothing case Some(v) => Reports(v))
    case Sampled(Up(_)) => Finds(DbRunning)
    case Sampled(Gone) => Finds(DbStopped)
    case Sampled(Unclear) => Nothing
  }

  function DbMarks(ts: seq<Step>): (ms: seq<DbMark>)
    ensures |ms| == |ts| && forall i | 0 <= i < |ts| :: ms[i] == DbMarkOf(ts[i])
  {
    seq(|ts|, i requires 0 <= i < |ts| => DbMarkOf(ts[i]))
  }

  function LastReport(ms: seq<DbMark>): (r: Option<nat>)
    ensures r.Some? ==> r.value < |ms| && ms[r.value].Reports?
  {
    if ms == [] then None
    else if ms[|ms| - 1].Reports? then Some(|ms| - 1) else LastReport(ms[..|ms| - 1])
  }

  function LastFinding(ms: seq<DbMark>): (r: Option<nat>)
    ensures r.Some? ==> r.value < |ms| && ms[r.value].Finds?
  {
    if ms == [] then None
    else if ms[|ms| - 1].Finds? then Some(|ms| - 1) else LastFinding(ms[..|ms| - 1])
  }

  /** The report and the finding the closed form of a database takes follow every other. */
  lemma {:induction false} LastReportIsLast(ms: seq<DbMark>, k: nat)
    requires k < |ms| && ms[k].Reports?
    ensures LastReport(ms).Some? && k <= LastReport(ms).value
  {
    if !ms[|ms| - 1].Reports? {
      LastReportIsLast(ms[..|ms| - 1], k);
    }
  }

  lemma {:induction false} LastFindingIsLast(ms: seq<DbMark>, k: nat)
    requires k < |ms| && ms[k].Finds?
    ensures LastFinding(ms).Some? && k <= LastFinding(ms).value
  {
    if !ms[|ms| - 1].Finds? {
      LastFindingIsLast(ms[..|ms| - 1], k);
    }
  }

  /** Samples alone correct running and stopped to the last thing they found, and leave failed alone. */
  function DbSettled(s: DbStatus, ms: seq<DbMark>): DbStatus {
    if s.Failed? then s
    else match LastFinding(ms) case Some(j) => ms[j].status case None => s
  }

  function DbClosedForm(s: DbStatus, ms: seq<DbMark>): DbStatus {
    match LastReport(ms)
    case Some(i) => DbSettled(ms[i].status, ms[i + 1..])
    case None => DbSettled(s, ms)
  }

  function DbMoveByMark(s: DbStatus, m: DbMark): DbStatus {
    match m
    case Reports(v) => v
    case Finds(v) => if s.Failed? then s else v
    case Nothing => s
  }

  /** For a row no task owns the guards amount to the marks, and the row never becomes a task's. */
  lemma DbMoveIsByMark(s: DbStatus, t: Step)
    requires !TaskOwned(s)
    ensures MoveDb(s, t) == DbMoveByMark(s, DbMarkOf(t)) && !TaskOwned(MoveDb(s, t))
  {
  }

  function DbAfterMarks(s: DbStatus, ms: seq<DbMark>): DbStatus {
    if ms == [] then s else DbMoveByMark(DbAfterMarks(s, ms[..|ms| - 1]), ms[|ms| - 1])
  }

  lemma {:induction false} DbAfterIsByMarks(s: DbStatus, ts: seq<Step>)
    requires !TaskOwned(s)
    ensures DbAfter(s, ts) == DbAfterMarks(s, DbMarks(ts)) && !TaskOwned(DbAfter(s, ts))
  {
    if ts != [] {
      var n := |ts| - 1;
      DbAfterIsByMarks(s, ts[..n]);
      assert DbMarks(ts)[..n] == DbMarks(ts[..n]);
      DbMoveIsByMark(DbAfter(s, ts[..n]), ts[n]);
    }
  }

  /** A sample never finds a database failed. */
  ghost predicate FindsSteady(ms: seq<DbMark>) { forall i | 0 <= i < |ms| && ms[i].Finds? :: !ms[i].status.Failed? }

  lemma DbSettledMove(s: DbStatus, ms: seq<DbMark>, n: nat)
    requires |ms| == n + 1 && !ms[n].Reports? && FindsSteady(ms)
    ensures DbSettled(s, ms) == DbMoveByMark(DbSettled(s, ms[..n]), ms[n])
  {
  }

  lemma {:induction false} DbMarksClosedForm(s: DbStatus, ms: seq<DbMark>)
    requires FindsSteady(ms)
    ensures DbAfterMarks(s, ms) == DbClosedForm(s, ms)
  {
    if ms != [] {
      var n := |ms| - 1;
      DbMarksClosedForm(s, ms[..n]);
      if !ms[n].Reports? {
        match LastReport(ms[..n]) {
          case None => DbSettledMove(s, ms, n);
          case Some(i) =>
            assert ms[i + 1..][..n - i - 1] == ms[..n][i + 1..];
            DbSettledMove(ms[i].status, ms[i + 1..], n - i - 1);
        }
      }
    }
  }

  /**
    A database no task owns, after any mix of events and samples: the last event decides, then the
    last telling sample after it corrects running and stopped.
   */
  lemma DbHasClosedForm(s: DbStatus, ts: seq<Step>)
    requires !TaskOwned(s)
    ensures DbAfter(s, ts) == DbClosedForm(s, DbMarks(ts))
  {
    DbAfterIsByMarks(s, ts);
    DbMarksClosedForm(s, DbMarks(ts));
  }

  /**
    A creating, upgrading or backing-up database keeps that status through any mix of events and
    samples exactly when every event that would move it finds the status readable.
   */
  lemma {:induction false} TaskOwnedKeptIff(s: DbStatus, ts: seq<Step>)
    requires TaskOwned(s)
    ensures DbAfter(s, ts) == s <==> !exists i | 0 <= i < |ts| :: Clobbers(ts[i])
    ensures DbAfter(s, ts) != s ==> !TaskOwned(DbAfter(s, ts))
  {
    if ts != [] {
      var n := |ts| - 1;
      TaskOwnedKeptIff(s, ts[..n]);
      assert forall i | 0 <= i < n :: ts[..n][i] == ts[i];
      assert DbAfter(s, ts) == MoveDb(DbAfter(s, ts[..n]), ts[n]);
      if DbAfter(s, ts[..n]) == s {
        OwnedMove(s, ts[n]);
      } else {
        DbMoveIsByMark(DbAfter(s, ts[..n]), ts[n]);
      }
    }
  }

  /** An event that would move the row and finds its status unreadable. */
  predicate Clobbers(t: Step) { DbMarkOf(t).Reports? && !t.event.readable }

  lemma OwnedMove(s: DbStatus, t: Step)
    requires TaskOwned(s)
    ensures MoveDb(s, t) == s <==> !Clobbers(t)
    ensures Clobbers(t) ==> !TaskOwned(MoveDb(s, t))
  {
  }
}
