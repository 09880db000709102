/**
  The public "an update is underway" flag (apps/api/internal/handler/update_probe.go): a cached
  container reading behind a lock, and the clock an update is reported by.
 */
module UpdateProbe {
  import opened Base

  /** Times are nanoseconds since the Unix epoch. */
  const SECOND := 1_000_000_000
  const TTL := 5 * SECOND

  /** The listing's clock: Docker reports when a container was made in whole seconds. */
  function Seconds(t: int): (s: int)
    ensures s <= t < s + SECOND
  {
    t - t % SECOND
  }

  /** What one container listing says of an update helper; made is when it was made. A failed listing counts as none. */
  datatype Listing = Unlisted | NoHelper | Helper(made: int)

  /** The cached reading. since means something only while running. */
  datatype Probe = Probe(read: bool, readAt: int, running: bool, since: int)

  datatype Reading = Reading(at: int, running: bool, since: int)

  const UNREAD := Probe(false, 0, false, 0)

  predicate IsCached(p: Probe, now: int) { p.read && now - p.readAt < TTL }

  function Recorded(listing: Listing, at: int): Probe {
    match listing
    case Helper(made) => Probe(true, at, true, Seconds(made))
    case _ => Probe(true, at, false, 0)
  }

  /** The lock serialises the calls. listing is what Docker would say, after the time when it has said it. */
  datatype Call = Look(now: int, listing: Listing, after: int) | Mark(at: int, since: int)

  function Step(p: Probe, c: Call): Probe {
    match c
    case Look(now, listing, after) => if IsCached(p, now) then p else Recorded(listing, after)
    case Mark(at, since) => Probe(true, at, true, since)
  }

  function After(cs: seq<Call>, n: nat): Probe
    requires n <= |cs|
  {
    if n == 0 then UNREAD else Step(After(cs, n - 1), cs[n - 1])
  }

  function Begins(c: Call): int { if c.Look? then c.now else c.at }

  function Ends(c: Call): int { if c.Look? then c.after else c.at }

  /** The clock does not run backwards. */
  ghost predicate InOrder(cs: seq<Call>) {
    && (forall i | 0 <= i < |cs| :: Begins(cs[i]) <= Ends(cs[i]))
    && (forall i, j | 0 <= i < j < |cs| :: Ends(cs[i]) <= Begins(cs[j]))
  }

  /** The call read the containers or recorded a started helper; anything else answers from the cache. */
  predicate Reads(cs: seq<Call>, i: nat)
    requires i < |cs|
  {
    cs[i].Mark? || !IsCached(After(cs, i), cs[i].now)
  }

  function ReadingOf(c: Call): Reading {
    match c
    case Look(_, Helper(made), after) => Reading(after, true, Seconds(made))
    case Look(_, _, after) => Reading(after, false, 0)
    case Mark(at, since) => Reading(at, true, since)
  }

  /** The cache always holds the last reading. */
  lemma {:induction false} HoldsLastReading(cs: seq<Call>, n: nat) returns (j: nat)
    requires n <= |cs| && After(cs, n).read
    ensures j < n && Reads(cs, j) && forall k | j < k < n :: !Reads(cs, k)
    ensures var p := After(cs, n); ReadingOf(cs[j]) == Reading(p.readAt, p.running, p.since)
  {
    if Reads(cs, n - 1) {
      j := n - 1;
    } else {
      j := HoldsLastReading(cs, n - 1);
    }
  }

  /** An answer is never drawn from a reading that is TTL or more old. */
  lemma AnswerIsRecent(cs: seq<Call>, i: nat) returns (j: nat)
    requires InOrder(cs) && i < |cs| && cs[i].Look?
    ensures j <= i && Reads(cs, j) && cs[i].now - ReadingOf(cs[j]).at < 5_000_000_000
    ensures var p := After(cs, i + 1); ReadingOf(cs[j]) == Reading(p.readAt, p.running, p.since)
  {
    j := HoldsLastReading(cs, i + 1);
    assert Begins(cs[i]) <= Ends(cs[i]);
  }

  /** However many calls come, two listings are at least TTL apart, and so is a listing after a recorded start. */
  lemma ReadsAreApart(cs: seq<Call>, i: nat, j: nat)
    requires InOrder(cs) && i < j < |cs| && Reads(cs, i) && Reads(cs, j) && cs[j].Look?
    ensures cs[j].now - ReadingOf(cs[i]).at >= 5_000_000_000
  {
    ReadStays(cs, i + 1, j);
    var k := HoldsLastReading(cs, j);
    assert i <= k;
    assert Ends(cs[i]) <= Ends(cs[k]) by {
      assert i < k ==> Ends(cs[i]) <= Begins(cs[k]) <= Ends(cs[k]);
    }
  }

  lemma {:induction false} ReadStays(cs: seq<Call>, i: nat, n: nat)
    requires i <= n <= |cs| && After(cs, i).read
    ensures After(cs, n).read
  {
    if i < n {
      ReadStays(cs, i, n - 1);
    }
  }

  class Cache {
    var state: Probe

    constructor ()
      ensures state == UNREAD
    {
      state := UNREAD;
    }

    /** helper: the listing is asked for, and the clock read again, only when the cache is stale. */
    method HelperState(now: int, listing: Listing, after: int) returns (running: bool, since: int)
      modifies this
      ensures state == Step(old(state), Look(now, listing, after))
      ensures running == state.running && since == state.since
    {
      if state.read && now - state.readAt < TTL {
        return state.running, state.since;
      }
      var found := listing.Helper?;
      state := Probe(true, after, found, if found then Seconds(listing.made) else 0);
      return state.running, state.since;
    }

    method MarkRunning(at: int, since: int)
      modifies this
      ensures state == Step(old(state), Mark(at, since))
    {
      state := Probe(true, at, true, since);
    }
  }

  // ----- The reported clock -----

  /** clampElapsed: whole seconds, never negative. */
  function Clamp(d: int): (e: int)
    ensures 0 <= e
  {
    if d < 0 then 0 else d - d % SECOND
  }

  lemma ClampGrows(d: int, e: int)
    requires d <= e
    ensures Clamp(d) <= Clamp(e)
    ensures 0 <= d ==> Clamp(d) <= d < Clamp(d) + SECOND && Clamp(d) % SECOND == 0
  {
    if 0 <= d {
      assert d - d % SECOND == d / SECOND * SECOND && e - e % SECOND == e / SECOND * SECOND;
      assert d / SECOND <= e / SECOND;
    }
  }

  /**
    The pull's start when this process has one from at most the pull timeout before the helper; else
    the helper's creation.
   */
  function ReportedStart(since: int, began: int, pullTimeout: int): int {
    if began != 0 && began < since && since - began <= pullTimeout then began else since
  }

  datatype State = Idle | Updating(elapsed: int)

  /** The start an update is reported by, if one is underway; helper is None when Docker cannot be reached. */
  function Underway(helper: Option<Probe>, began: int, starting: bool, pullTimeout: int): Option<int> {
    if helper.Some? && helper.value.running then Some(ReportedStart(helper.value.since, began, pullTimeout))
    else if starting then Some(began)
    else None
  }

  function Report(now: int, start: Option<int>): State {
    match start
    case None => Idle
    case Some(t) => Updating(Clamp(now - t))
  }

  /** updateState. */
  function UpdateState(now: int, helper: Option<Probe>, began: int, starting: bool, pullTimeout: int): State {
    Report(now, Underway(helper, began, starting, pullTimeout))
  }

  // ----- One update -----

  /**
    The guard was taken, the pull's start was stored, the helper was made and then recorded; in this
    order. recreates tells an update whose helper gets as far as putting a new process in this one's
    place.
   */
  datatype Update = Update(taken: int, began: int, made: int, recorded: int, pullTimeout: int, recreates: bool)

  predicate Ordered(u: Update) { SECOND <= u.taken <= u.began <= u.made <= u.recorded && SECOND <= u.pullTimeout }

  /** The helper was recorded within the pull timeout. */
  predicate Prompt(u: Update) { u.recorded <= u.began + u.pullTimeout }

  predicate Timely(u: Update) { Ordered(u) && Prompt(u) }

  /** Docker's whole second for the helper lies before the start: it was made in the second the pull began in. */
  predicate SameSecond(u: Update) { Seconds(u.made) < u.began }

  /** The handover keeps the clock exactly when its whole second is not before the start, nor too late after. */
  lemma HandoverKeepsClockIff(u: Update)
    requires Ordered(u)
    ensures ReportedStart(Seconds(u.made), u.began, u.pullTimeout) == u.began
       <==> !SameSecond(u) && Seconds(u.made) <= u.began + u.pullTimeout
    ensures SameSecond(u) ==>
            ReportedStart(Seconds(u.made), u.began, u.pullTimeout) == Seconds(u.made) == Seconds(u.began)
  {
  }

  /**
    What happens during one update once its guard is taken: clients ask, its start is stored, the
    helper is spawned and recorded, and the guard is released. The helper, which runs on, may replace
    the process by a new one that knows of none of this. An earlier attempt that failed, and so
    released the guard, may still be to clear the start it had stored, and then to release the guard
    once more as it returns.
   */
  datatype Move =
    | Ask(now: int, reachable: bool, listing: Listing, after: int)
    | Stored(at: int)
    | Spawned(at: int)
    | Released(at: int)
    | Replaced(at: int)
    | Cleared(at: int)
    | Freed(at: int)

  /** How far an earlier attempt that failed has got. */
  datatype Earlier = Failing | Leaving | Gone

  /**
    What the process that answers holds, and how far the update is. began is the stored start: 0, or an
    earlier attempt's, until this update has begun, and 0 again in the process that recreates this one.
   */
  datatype Driver = Driver(probe: Probe, starting: bool, began: int, earlier: Earlier,
                           begun: bool, spawned: bool, replaced: bool)

  function Moved(d: Driver, m: Move): Driver {
    match m
    case Ask(now, reachable, listing, after) =>
      if reachable then d.(probe := Step(d.probe, Look(now, listing, after))) else d
    case Stored(at) => d.(began := at, begun := true)
    case Spawned(at) => d.(probe := Step(d.probe, Mark(at, at)), spawned := true)
    case Released(_) => d.(starting := false)
    case Replaced(_) => Driver(UNREAD, false, 0, Gone, true, true, true)
    case Cleared(_) => d.(began := 0, earlier := Leaving)
    case Freed(_) => d.(starting := false, earlier := Gone)
  }

  /**
    The start is stored once, before the helper is made. A listing shows the update's helper, once it
    is made, and every listing after it was recorded, or has replaced the process, does. The guard is
    released after the recording.
   */
  predicate Regular(d: Driver, m: Move, u: Update) {
    match m
    case Ask(_, _, Helper(made), after) => d.begun && made == u.made <= after
    case Ask(_, _, _, _) => !d.spawned
    case Stored(at) => !d.begun && at == u.began
    case Spawned(at) => d.begun && !d.spawned && at == u.recorded
    case Released(_) => d.spawned
    case Replaced(at) => u.recreates && d.begun && !d.replaced && u.made <= at
    case Cleared(_) => d.earlier.Failing?
    case Freed(_) => d.earlier.Leaving?
  }

  function Drive(d: Driver, ms: seq<Move>, n: nat): Driver
    requires n <= |ms|
  {
    if n == 0 then d else Moved(Drive(d, ms, n - 1), ms[n - 1])
  }

  function TimeOf(m: Move): int { if m.Ask? then m.now else m.at }

  function EndOf(m: Move): int { if m.Ask? then m.after else m.at }

  function Opening(d: Driver, u: Update): int { if d.begun then u.began else u.taken }

  /** A run of one update: regular moves, and a clock that does not run backwards. */
  ghost predicate IsRun(d: Driver, ms: seq<Move>, u: Update) {
    && (forall i | 0 <= i < |ms| :: Regular(Drive(d, ms, i), ms[i], u))
    && (forall i | 0 <= i < |ms| :: Opening(d, u) <= TimeOf(ms[i]) <= EndOf(ms[i]))
    && (forall i, j | 0 <= i < j < |ms| :: EndOf(ms[i]) <= TimeOf(ms[j]))
  }

  /**
    The guard is taken, the start is stored or an older one stands there, and a cached reading is
    older than the guard and, if it shows an earlier helper, no longer fresh.
   */
  predicate JustTaken(d: Driver, u: Update) {
    && d.starting && !d.spawned && !d.replaced && (d.probe.read ==> d.probe.readAt <= u.taken) && NotFresh(d, u)
    && if d.begun then d.began == u.began else d.began <= u.taken
  }

  /** No reading of an earlier helper will be answered from. */
  predicate NotFresh(d: Driver, u: Update) { d.probe.running ==> !IsCached(d.probe, Opening(d, u)) }

  /** What every move keeps of a run that starts in d. */
  ghost predicate Kept(d: Driver, e: Driver, u: Update) {
    && (e.probe.running ==>
          || (e.begun && e.probe.since == Seconds(u.made))
          || (!e.replaced && (e.probe == d.probe || (e.begun && e.probe.since == u.recorded))))
    && (e.spawned && !e.replaced ==> e.probe.running)
    && (e.replaced ==>
          u.recreates && e.begun && e.spawned && !e.starting && e.began == 0 && (e.probe.read ==> e.probe.running))
    && (!e.starting ==> e.spawned || !d.earlier.Gone?)
    && (d.earlier.Gone? ==> e.earlier.Gone?)
    && (!d.earlier.Failing? ==>
          !e.earlier.Failing? && (!e.replaced ==> e.began == if e.begun then u.began else d.began))
  }

  lemma MoveKeeps(d: Driver, e: Driver, m: Move, u: Update)
    requires Kept(d, e, u) && Regular(e, m, u)
    ensures Kept(d, Moved(e, m), u) && (Moved(e, m).begun <==> e.begun || m == Stored(u.began))
    ensures e.replaced ==> Moved(e, m).replaced
  {
    hide Seconds;
  }

  lemma {:induction false} DriveKeeps(d: Driver, ms: seq<Move>, n: nat, u: Update)
    requires JustTaken(d, u) && IsRun(d, ms, u) && n <= |ms|
    ensures Kept(d, Drive(d, ms, n), u)
  {
    hide Moved, Regular;
    if n > 0 {
      DriveKeeps(d, ms, n - 1, u);
      MoveKeeps(d, Drive(d, ms, n - 1), ms[n - 1], u);
    }
  }

  lemma BegunStep(d: Driver, ms: seq<Move>, n: nat, u: Update)
    requires JustTaken(d, u) && IsRun(d, ms, u) && n < |ms|
    ensures Drive(d, ms, n + 1).begun <==> Drive(d, ms, n).begun || ms[n] == Stored(u.began)
    ensures Drive(d, ms, n).replaced ==> Drive(d, ms, n + 1).replaced
  {
    hide Moved, Regular, Kept;
    DriveKeeps(d, ms, n, u);
    MoveKeeps(d, Drive(d, ms, n), ms[n], u);
  }

  lemma {:induction false} BegunStays(d: Driver, ms: seq<Move>, i: nat, j: nat, u: Update)
    requires JustTaken(d, u) && IsRun(d, ms, u) && i <= j <= |ms|
    ensures Drive(d, ms, i).begun ==> Drive(d, ms, j).begun
    ensures Drive(d, ms, i).replaced ==> Drive(d, ms, j).replaced
  {
    hide Drive, IsRun, JustTaken;
    if i < j {
      BegunStays(d, ms, i, j - 1, u);
      BegunStep(d, ms, j - 1, u);
    }
  }

  /** A move between has stored the start. */
  lemma {:induction false} StoredBetween(d: Driver, ms: seq<Move>, i: nat, j: nat, u: Update) returns (k: nat)
    requires JustTaken(d, u) && IsRun(d, ms, u) && i <= j <= |ms|
    requires !Drive(d, ms, i).begun && Drive(d, ms, j).begun
    ensures i <= k < j && ms[k] == Stored(u.began)
  {
    hide Drive, IsRun, JustTaken;
    k := j - 1;
    BegunStep(d, ms, k, u);
    if ms[k] != Stored(u.began) {
      k := StoredBetween(d, ms, i, k, u);
    }
  }

  /** The start that a client's answer is reckoned from. */
  function StartTold(d: Driver, m: Move, u: Update): Option<int>
    requires m.Ask?
  {
    Underway(if m.reachable then Some(Moved(d, m).probe) else None, d.began, d.starting, u.pullTimeout)
  }

  /** What a client that asks is told. */
  function Told(d: Driver, m: Move, u: Update): State
    requires m.Ask?
  {
    UpdateState(m.now, if m.reachable then Some(Moved(d, m).probe) else None, d.began, d.starting, u.pullTimeout)
  }

  /**
    Every answer is reckoned from the start that stood there before, until the new one is stored; then
    from the start of the pull, or from the whole second in which it and the helper began; and by a
    new process from the whole second in which the helper was made.
   */
  lemma WhichStart(d: Driver, ms: seq<Move>, i: nat, u: Update)
    requires JustTaken(d, u) && Timely(u) && !d.earlier.Failing? && IsRun(d, ms, u) && i < |ms| && ms[i].Ask?
    ensures var e := Drive(d, ms, i);
            StartTold(e, ms[i], u).Some? ==>
              var start := StartTold(e, ms[i], u).value;
              if e.replaced then start == Seconds(u.made)
              else if !e.begun then start == d.began
              else start == u.began || (SameSecond(u) && start == Seconds(u.made))
  {
    hide Seconds, ReportedStart;
    DriveKeeps(d, ms, i, u);
    DriveKeeps(d, ms, i + 1, u);
    HandoverKeepsClockIff(u);
    RecordKeepsClock(u);
    NewProcessFallsBack(Seconds(u.made), u);
    if Drive(d, ms, i).replaced && ms[i].reachable {
      LookReads(Drive(d, ms, i).probe, ms[i]);
    }
  }

  /** The guard is held until this attempt or an earlier one releases it, or the process is replaced. */
  ghost predicate GuardHeld(ms: seq<Move>, n: nat)
    requires n <= |ms|
  {
    forall k | 0 <= k < n :: !ms[k].Released? && !ms[k].Freed? && !ms[k].Replaced?
  }

  lemma {:induction false} HeldIsStarting(d: Driver, ms: seq<Move>, n: nat)
    requires d.starting && n <= |ms|
    ensures Drive(d, ms, n).starting <==> GuardHeld(ms, n)
  {
    if n > 0 {
      HeldIsStarting(d, ms, n - 1);
    }
  }

  /** With no earlier attempt around nothing is told only when the guard is not held and Docker is out of reach. */
  lemma HiddenIff(d: Driver, ms: seq<Move>, i: nat, u: Update)
    requires JustTaken(d, u) && d.earlier.Gone? && IsRun(d, ms, u) && i < |ms| && ms[i].Ask?
    ensures var e := Drive(d, ms, i); StartTold(e, ms[i], u).None? <==> !ms[i].reachable && !GuardHeld(ms, i)
  {
    hide Seconds, ReportedStart, GuardHeld;
    HeldIsStarting(d, ms, i);
    DriveKeeps(d, ms, i, u);
    DriveKeeps(d, ms, i + 1, u);
    LookReads(Drive(d, ms, i).probe, ms[i]);
  }

  lemma RecordKeepsClock(u: Update)
    requires Timely(u)
    ensures ReportedStart(u.recorded, u.began, u.pullTimeout) == u.began
  {
  }

  lemma NewProcessFallsBack(since: int, u: Update)
    ensures ReportedStart(since, 0, u.pullTimeout) == since
  {
  }

  lemma LookReads(p: Probe, m: Move)
    requires m.Ask?
    ensures Step(p, Look(m.now, m.listing, m.after)).read
  {
  }

  /**
    When the helper was not made in the second the pull began in, and no earlier attempt is still to
    clear the start, every client is told one clock through the pull, the handover and after it: now
    less the start in whole seconds. A client that asks before the start is stored is told now less
    what stood there, and one that asks the new process now less the whole second in which the helper
    was made. With no earlier attempt around only a client that asks after the guard is released,
    while Docker cannot be reached, is told that nothing is happening.
   */
  lemma OneClock(d: Driver, ms: seq<Move>, i: nat, u: Update)
    requires JustTaken(d, u) && Timely(u) && !SameSecond(u) && !d.earlier.Failing?
    requires IsRun(d, ms, u) && i < |ms| && ms[i].Ask?
    ensures var e := Drive(d, ms, i);
            && (d.earlier.Gone? ==> (Told(e, ms[i], u).Updating? <==> ms[i].reachable || GuardHeld(ms, i)))
            && (Told(e, ms[i], u).Updating? ==>
                  var start := if e.replaced then Seconds(u.made) else if e.begun then u.began else d.began;
                  Told(e, ms[i], u).elapsed == Clamp(ms[i].now - start))
  {
    hide Seconds, Clamp, Drive, Moved, Underway, IsRun, GuardHeld;
    WhichStart(d, ms, i, u);
    if d.earlier.Gone? {
      HiddenIff(d, ms, i, u);
    }
  }

  /** A time in whole seconds, rounded up. */
  function Up(d: int): int { Clamp(d + SECOND - 1) }

  /** An answer reckoned from a later start is behind by no more than the starts are apart, rounded up. */
  lemma ReportGrows(a: int, b: int, first: Option<int>, second: Option<int>)
    requires first.Some? && second.Some? && a <= b
    ensures Report(a, first).elapsed <= Report(b, second).elapsed + Up(second.value - first.value)
  {
    var x, y := b - second.value, second.value - first.value;
    ClampGrows(a - first.value, x + y);
    ClampAdds(x, y);
  }

  lemma ClampAdds(x: int, y: int)
    ensures Clamp(x + y) <= Clamp(x) + Up(y)
  {
    if x <= 0 {
      ClampGrows(x + y, y + SECOND - 1);
    } else if 0 < x + y {
      var m, n := x / SECOND, (y + SECOND - 1) / SECOND;
      assert x == m * SECOND + x % SECOND && y + SECOND - 1 == n * SECOND + (y + SECOND - 1) % SECOND;
      assert x + y < (m + n + 1) * SECOND;
      assert (x + y) / SECOND <= m + n;
      assert Clamp(x + y) == (x + y) / SECOND * SECOND && Clamp(x) == m * SECOND;
      assert Up(y) >= n * SECOND;
    }
  }

  lemma ClampShifts(d: int)
    ensures Clamp(d + SECOND) <= Clamp(d) + SECOND
    ensures 0 <= d ==> Clamp(d + SECOND) == Clamp(d) + SECOND
    ensures Clamp(d) == 0 <==> d < SECOND
  {
    if 0 <= d {
      assert (d + SECOND) % SECOND == d % SECOND;
    } else if 0 <= d + SECOND {
      assert Clamp(d + SECOND) <= d + SECOND < SECOND;
    }
  }

  /** How far behind the i-th answer the j-th can be. */
  function Slack(d: Driver, ms: seq<Move>, i: nat, j: nat, u: Update): int
    requires i <= j <= |ms|
  {
    if Drive(d, ms, i).replaced then 0
    else if Drive(d, ms, i).begun then
      if Drive(d, ms, j).replaced then Up(Seconds(u.made) - u.began) else Up(u.began - Seconds(u.made))
    else if Drive(d, ms, j).begun then Clamp(u.began - d.began)
    else 0
  }

  /**
    How far an answer can be behind an earlier one. Between answers of one process after the storing,
    by no more than the start is ahead of the helper's whole second; from one process to the next, by no
    more than the whole second is ahead of the start, which is the time of the pull; both rounded up. And
    an answer from before the start was stored can be ahead of those after it by all the time since the
    start that stood there.
   */
  lemma NeverBackByMore(d: Driver, ms: seq<Move>, i: nat, j: nat, u: Update)
    requires JustTaken(d, u) && Timely(u) && !d.earlier.Failing?
    requires IsRun(d, ms, u) && i < j < |ms| && ms[i].Ask? && ms[j].Ask?
    ensures var first, second := Told(Drive(d, ms, i), ms[i], u), Told(Drive(d, ms, j), ms[j], u);
            first.Updating? && second.Updating? ==> first.elapsed <= second.elapsed + Slack(d, ms, i, j, u)
  {
    hide Clamp, Drive, Moved, Underway, Seconds, Up;
    WhichStart(d, ms, i, u);
    WhichStart(d, ms, j, u);
    BegunStays(d, ms, i, j, u);
    DriveKeeps(d, ms, i, u);
    DriveKeeps(d, ms, j, u);
    var e, f := Drive(d, ms, i), Drive(d, ms, j);
    var a, b := StartTold(e, ms[i], u), StartTold(f, ms[j], u);
    assert ms[i].now <= EndOf(ms[i]) <= ms[j].now by {
      assert TimeOf(ms[i]) <= EndOf(ms[i]) <= TimeOf(ms[j]);
    }
    if a.Some? && b.Some? {
      if !e.begun && f.begun {
        var k := StoredBetween(d, ms, i, j, u);
        assert TimeOf(ms[i]) <= EndOf(ms[i]) <= TimeOf(ms[k]);
        ClampGrows(ms[i].now - d.began, u.began - d.began);
      } else {
        ReportGrows(ms[i].now, ms[j].now, a, b);
        UpGrows(b.value - a.value, 0);
        UpGrows(b.value - a.value, u.began - Seconds(u.made));
        UpGrows(b.value - a.value, Seconds(u.made) - u.began);
      }
    }
  }

  lemma UpGrows(x: int, y: int)
    ensures x <= y ==> Up(x) <= Up(y)
    ensures x <= 0 <==> Up(x) == 0
    ensures 0 <= Up(x) && 0 <= Up(y)
  {
    ClampShifts(x + SECOND - 1);
    if x <= y {
      ClampGrows(x + SECOND - 1, y + SECOND - 1);
    }
  }

  /** The start and the helper's whole second are one, as far as each is told from. */
  predicate OneStart(u: Update) { !SameSecond(u) && (u.recreates ==> Seconds(u.made) <= u.began) }

  lemma NoSlack(d: Driver, ms: seq<Move>, i: nat, j: nat, u: Update)
    requires JustTaken(d, u) && IsRun(d, ms, u) && i <= j <= |ms| && OneStart(u) && NoOldStart(d, u)
    ensures Slack(d, ms, i, j, u) == 0
  {
    hide Clamp, IsRun, Up, Drive;
    ClampShifts(u.began - d.began);
    UpGrows(Seconds(u.made) - u.began, 0);
    UpGrows(u.began - Seconds(u.made), 0);
    DriveKeeps(d, ms, j, u);
    if d.begun {
      BegunStays(d, ms, 0, i, u);
      DriveStart(d, ms);
    }
  }

  /** The j-th answer is behind the i-th. */
  ghost predicate Falls(d: Driver, ms: seq<Move>, i: nat, j: nat, u: Update)
    requires i < j < |ms| && ms[i].Ask? && ms[j].Ask?
  {
    var first, second := Told(Drive(d, ms, i), ms[i], u), Told(Drive(d, ms, j), ms[j], u);
    first.Updating? && second.Updating? && second.elapsed < first.elapsed
  }

  /** No client is ever told less than a client before it. */
  ghost predicate NeverGoesBack(d: Driver, u: Update) {
    forall ms: seq<Move>, i: nat, j: nat | IsRun(d, ms, u) && i < j < |ms| && ms[i].Ask? && ms[j].Ask? ::
      !Falls(d, ms, i, j, u)
  }

  /** No poll can come while a start of a second or more ago stands where the new one is to be stored. */
  predicate NoOldStart(d: Driver, u: Update) { d.begun || u.began - d.began < SECOND }

  lemma NoneGoesBack(d: Driver, u: Update)
    requires JustTaken(d, u) && Timely(u) && OneStart(u) && NoOldStart(d, u) && !d.earlier.Failing?
    ensures NeverGoesBack(d, u)
  {
    hide Told, Drive, IsRun, Slack, JustTaken;
    forall ms: seq<Move>, i: nat, j: nat | IsRun(d, ms, u) && i < j < |ms| && ms[i].Ask? && ms[j].Ask?
      ensures !Falls(d, ms, i, j, u)
    {
      NeverBackByMore(d, ms, i, j, u);
      NoSlack(d, ms, i, j, u);
    }
  }

  /**
    The reported time can go back exactly when the helper is made in the second the pull began in; or
    its update replaces the process and it was made in a later one; or it is recorded later than the
    pull timeout; or an older start stands there while clients ask; or an earlier attempt is still to
    clear the start.
   */
  lemma NeverGoesBackIff(d: Driver, u: Update)
    requires JustTaken(d, u) && Ordered(u)
    ensures NeverGoesBack(d, u) <==> OneStart(u) && Prompt(u) && NoOldStart(d, u) && !d.earlier.Failing?
  {
    hide Drive, IsRun, Told, Moved;
    if !NoOldStart(d, u) {
      var ms := WindowGoesBack(d, u);
      assert Falls(d, ms, 0, 2, u);
    } else if !OneStart(u) || !Prompt(u) || d.earlier.Failing? {
      var ms, i, j := BeginsAndGoesBack(d, u);
    } else {
      NoneGoesBack(d, u);
    }
  }

  /** A move put before a run. */
  lemma RunAfter(d: Driver, m: Move, ms: seq<Move>, u: Update)
    requires Regular(d, m, u) && Opening(d, u) <= TimeOf(m) <= EndOf(m) <= Opening(Moved(d, m), u)
    requires IsRun(Moved(d, m), ms, u)
    ensures IsRun(d, [m] + ms, u)
  {
    hide Drive, Moved, Regular;
    var all := [m] + ms;
    forall i | 0 <= i < |all| ensures Regular(Drive(d, all, i), all[i], u) {
      if i > 0 {
        DriveAfter(d, m, ms, i - 1);
        assert all[i] == ms[i - 1];
      } else {
        DriveStart(d, all);
      }
    }
  }

  lemma DriveStart(d: Driver, ms: seq<Move>)
    ensures Drive(d, ms, 0) == d
  {
  }

  lemma {:induction false} DriveAfter(d: Driver, m: Move, ms: seq<Move>, n: nat)
    requires n <= |ms|
    ensures Drive(d, [m] + ms, n + 1) == Drive(Moved(d, m), ms, n)
  {
    if n > 0 {
      DriveAfter(d, m, ms, n - 1);
      assert ([m] + ms)[n] == ms[n - 1];
    } else {
      assert Drive(d, [m] + ms, 0) == d;
    }
  }

  /** Asked before and after the start is stored, at one instant, of a Docker that shows no helper. */
  lemma WindowGoesBack(d: Driver, u: Update) returns (ms: seq<Move>)
    requires JustTaken(d, u) && Ordered(u) && !NoOldStart(d, u)
    ensures IsRun(d, ms, u) && |ms| == 3 && ms[0].Ask? && ms[0].reachable && ms[2] == ms[0]
    ensures Told(Drive(d, ms, 0), ms[0], u) == Updating(Clamp(u.began - d.began))
    ensures Told(Drive(d, ms, 2), ms[2], u) == Updating(0)
    ensures SECOND <= Clamp(u.began - d.began)
  {
    var look := Ask(u.began, true, NoHelper, u.began);
    ms := [look, Stored(u.began), look];
    assert Drive(d, ms, 1) == Moved(d, look);
    assert Drive(d, ms, 2) == Moved(Moved(d, look), Stored(u.began));
    ClampGrows(SECOND, u.began - d.began);
  }

  lemma BeginsAndGoesBack(d: Driver, u: Update) returns (ms: seq<Move>, i: nat, j: nat)
    requires JustTaken(d, u) && Ordered(u) && (!OneStart(u) || !Prompt(u) || d.earlier.Failing?)
    ensures IsRun(d, ms, u) && i < j < |ms| && ms[i].Ask? && ms[j].Ask? && Falls(d, ms, i, j, u)
  {
    hide IsRun, Falls;
    if d.begun {
      ms, i, j := BegunGoesBack(d, u);
    } else {
      var rest, k, l := BegunGoesBack(Moved(d, Stored(u.began)), u);
      RunAfter(d, Stored(u.began), rest, u);
      FallsLater(d, Stored(u.began), rest, k, l, u);
      ms, i, j := [Stored(u.began)] + rest, k + 1, l + 1;
    }
  }

  lemma FallsLater(d: Driver, m: Move, ms: seq<Move>, i: nat, j: nat, u: Update)
    requires i < j < |ms| && ms[i].Ask? && ms[j].Ask? && Falls(Moved(d, m), ms, i, j, u)
    ensures var all := [m] + ms; all[i + 1].Ask? && all[j + 1].Ask? && Falls(d, all, i + 1, j + 1, u)
  {
    hide Drive, Moved, Told;
    DriveAfter(d, m, ms, i);
    DriveAfter(d, m, ms, j);
    assert ([m] + ms)[i + 1] == ms[i] && ([m] + ms)[j + 1] == ms[j];
  }

  lemma BegunGoesBack(d: Driver, u: Update) returns (ms: seq<Move>, i: nat, j: nat)
    requires JustTaken(d, u) && Ordered(u) && d.begun && (!OneStart(u) || !Prompt(u) || d.earlier.Failing?)
    ensures IsRun(d, ms, u) && i < j < |ms| && ms[i].Ask? && ms[j].Ask? && Falls(d, ms, i, j, u)
  {
    hide IsRun, Drive, Told, Seconds;
    if SameSecond(u) {
      ms := SecondGoesBack(d, u);
      i, j := 1, 2;
    } else if !Prompt(u) {
      ms := LateGoesBack(d, u);
      i, j := 0, 2;
    } else if d.earlier.Failing? {
      ms := ClearGoesBack(d, u);
      i, j := 1, 2;
    } else {
      ms := ReplacedGoesBack(d, u);
      i, j := 1, 3;
    }
  }

  /** An answer from a listing, and one at the same time from the stored start, because Docker is out of reach. */
  lemma SecondGoesBack(d: Driver, u: Update) returns (ms: seq<Move>)
    requires JustTaken(d, u) && Ordered(u) && d.begun && SameSecond(u)
    ensures IsRun(d, ms, u) && |ms| == 3 && ms[1].Ask? && ms[2].Ask? && Falls(d, ms, 1, 2, u)
    ensures StartTold(Drive(d, ms, 1), ms[1], u) == Some(Seconds(u.made))
    ensures StartTold(Drive(d, ms, 2), ms[2], u) == Some(u.began)
  {
    var s := Seconds(u.made);
    var t := s + Clamp(u.recorded - s) + SECOND + TTL;
    ClampGrows(u.recorded - s, t - s);
    var look, blind := Ask(t, true, Helper(u.made), t), Ask(t, false, Helper(u.made), t);
    ms := [Spawned(u.recorded), look, blind];
    assert Drive(d, ms, 0) == d;
    var d1 := d.(probe := Probe(true, u.recorded, true, u.recorded), spawned := true);
    assert Drive(d, ms, 1) == d1;
    assert !IsCached(d1.probe, t);
    var d2 := d1.(probe := Probe(true, t, true, s));
    assert Drive(d, ms, 2) == d2;
    WholeFalls(t, s, u.began);
  }

  /** At a whole number of seconds from one start, less is told from any later start. */
  lemma WholeFalls(t: int, first: int, second: int)
    requires first < second && first < t && (t - first) % SECOND == 0
    ensures Clamp(t - second) < Clamp(t - first)
  {
    ClampGrows(t - second, t - first);
  }

  /** The clock restarts at the recording of a helper that comes too long after the start. */
  lemma LateGoesBack(d: Driver, u: Update) returns (ms: seq<Move>)
    requires JustTaken(d, u) && Ordered(u) && d.begun && !Prompt(u)
    ensures IsRun(d, ms, u) && |ms| == 3 && ms[0].Ask? && ms[2].Ask? && Falls(d, ms, 0, 2, u)
    ensures Told(Drive(d, ms, 0), ms[0], u) == Updating(Clamp(u.recorded - u.began))
    ensures Told(Drive(d, ms, 2), ms[2], u) == Updating(0)
  {
    var blind := Ask(u.recorded, false, NoHelper, u.recorded);
    var look := Ask(u.recorded, true, Helper(u.made), u.recorded);
    ms := [blind, Spawned(u.recorded), look];
    assert Drive(d, ms, 0) == d;
    assert Drive(d, ms, 1) == d;
    assert Drive(d, ms, 2) == d.(probe := Probe(true, u.recorded, true, u.recorded), spawned := true);
    ClampShifts(u.recorded - u.began);
  }

  /** The new process does not know the start of the pull, and tells the time since the helper was made. */
  lemma ReplacedGoesBack(d: Driver, u: Update) returns (ms: seq<Move>)
    requires JustTaken(d, u) && Timely(u) && d.begun && u.recreates && u.began < Seconds(u.made)
    ensures IsRun(d, ms, u) && |ms| == 4 && ms[1].Ask? && ms[3] == ms[1] && Falls(d, ms, 1, 3, u)
    ensures StartTold(Drive(d, ms, 1), ms[1], u) == Some(u.began)
    ensures StartTold(Drive(d, ms, 3), ms[3], u) == Some(Seconds(u.made))
  {
    var t := u.began + Clamp(u.recorded - u.began) + SECOND;
    ClampGrows(u.recorded - u.began, t - u.began);
    var look := Ask(t, true, Helper(u.made), t);
    ms := [Spawned(u.recorded), look, Replaced(t), look];
    assert Drive(d, ms, 0) == d;
    var d1 := d.(probe := Probe(true, u.recorded, true, u.recorded), spawned := true);
    assert Drive(d, ms, 1) == d1;
    var d2 := Moved(d1, look);
    assert Drive(d, ms, 2) == d2;
    assert Drive(d, ms, 3) == Driver(UNREAD, false, 0, Gone, true, true, true);
    WholeFalls(t, u.began, Seconds(u.made));
  }

  /** An earlier attempt clears the start of this one: the pull is told from 1970, its helper from when it was made. */
  lemma ClearGoesBack(d: Driver, u: Update) returns (ms: seq<Move>)
    requires JustTaken(d, u) && Ordered(u) && d.begun && d.earlier.Failing?
    ensures IsRun(d, ms, u) && |ms| == 3 && ms[1].Ask? && ms[2].Ask? && Falls(d, ms, 1, 2, u)
    ensures Told(Drive(d, ms, 1), ms[1], u) == Updating(Clamp(ms[1].now)) && u.made <= ms[1].now
  {
    var t := u.made + TTL;
    var blind, look := Ask(t, false, Helper(u.made), t), Ask(t, true, Helper(u.made), t);
    ms := [Cleared(u.began), blind, look];
    var d1 := d.(began := 0, earlier := Leaving);
    assert Drive(d, ms, 0) == d;
    assert Drive(d, ms, 1) == d1;
    assert Drive(d, ms, 2) == d1;
    assert !IsCached(d1.probe, t);
    assert Step(d1.probe, Look(t, Helper(u.made), t)) == Probe(true, t, true, Seconds(u.made));
    assert StartTold(d1, blind, u) == Some(0);
    assert StartTold(d1, look, u) == Some(Seconds(u.made));
    assert SECOND <= Seconds(u.made);
    ClampShifts(t - Seconds(u.made));
    ClampGrows(t - Seconds(u.made) + SECOND, t);
  }

  /** Every client whose question Docker can answer is told of the update. */
  ghost predicate AlwaysTold(d: Driver, u: Update) {
    forall ms: seq<Move>, i: nat | IsRun(d, ms, u) && i < |ms| && ms[i].Ask? && ms[i].reachable ::
      Told(Drive(d, ms, i), ms[i], u).Updating?
  }

  /** An update is never hidden exactly when no earlier attempt is left that releases the guard a second time. */
  lemma AlwaysToldIff(d: Driver, u: Update)
    requires JustTaken(d, u) && Ordered(u)
    ensures AlwaysTold(d, u) <==> d.earlier.Gone?
  {
    if d.earlier.Gone? {
      hide Told, Drive;
      forall ms: seq<Move>, i: nat | IsRun(d, ms, u) && i < |ms| && ms[i].Ask? && ms[i].reachable
        ensures Told(Drive(d, ms, i), ms[i], u).Updating?
      {
        NeverHidden(d, ms, i, u);
      }
    } else {
      var ms := SecondReleaseHides(if d.earlier.Failing? then Moved(d, Cleared(Opening(d, u))) else d, u);
      if d.earlier.Failing? {
        RunAfter(d, Cleared(Opening(d, u)), ms, u);
        assert ([Cleared(Opening(d, u))] + ms)[2] == ms[1];
      }
    }
  }

  lemma NeverHidden(d: Driver, ms: seq<Move>, i: nat, u: Update)
    requires JustTaken(d, u) && d.earlier.Gone? && IsRun(d, ms, u) && i < |ms|
    requires ms[i].Ask? && ms[i].reachable
    ensures Told(Drive(d, ms, i), ms[i], u).Updating?
  {
    hide IsRun, JustTaken;
    HiddenIff(d, ms, i, u);
  }

  /** The earlier attempt returns, and a client that asks during the pull is told that nothing is happening. */
  lemma SecondReleaseHides(d: Driver, u: Update) returns (ms: seq<Move>)
    requires d.earlier.Leaving? && Ordered(u) && NotFresh(d, u) && !d.spawned
    ensures IsRun(d, ms, u) && |ms| == 2 && ms[1].Ask? && ms[1].reachable && Told(Drive(d, ms, 1), ms[1], u) == Idle
  {
    var t := Opening(d, u);
    var look := Ask(t, true, NoHelper, t);
    ms := [Freed(t), look];
    assert Drive(d, ms, 1) == Moved(d, Freed(t));
  }
}
