/**
  The disk-usage cache of the Docker overview (apps/api/internal/handler/docker.go): callers and the
  background refresher interleave, each section under the lock being one step.
 */
module DiskUsageCache {
  import opened Base

  type Caller = nat

  /** Two minutes, in nanoseconds. */
  const TTL := 2 * 60 * 1_000_000_000

  datatype Outcome<U> = Failed | Computed(usage: U)

  /**
    The fields under the lock, and around them: done channels are numbered as they are made, so the
    current one is number made; inFlight holds the refreshers still computing, closed the channels
    closed so far, results what each successful refresh computed, waiting the channel each blocked
    caller took.
   */
  datatype State<U> = State(
    value: Option<U>, computed: int, refreshing: bool, made: nat,
    inFlight: set<nat>, closed: set<nat>, results: map<nat, U>, latest: nat, waiting: map<Caller, nat>)

  datatype Step<U> =
    | Enter(caller: Caller, now: int)
    | Finish(refresher: nat, outcome: Outcome<U>, at: int)
    | Woken(who: Caller)
    | GaveUp(who: Caller)

  function Start<U>(): State<U> { State(None, 0, false, 0, {}, {}, map[], 0, map[]) }

  predicate Fresh<U>(s: State<U>, now: int) { s.value.Some? && now - s.computed <= TTL }

  /** A refresher finishes once; a blocked caller goes on when its channel is closed or when it gives up. */
  predicate Enabled<U>(s: State<U>, t: Step<U>) {
    match t
    case Enter(c, _) => c !in s.waiting
    case Finish(r, _, _) => r in s.inFlight
    case Woken(c) => c in s.waiting && s.waiting[c] in s.closed
    case GaveUp(c) => c in s.waiting
  }

  function Next<U>(s: State<U>, t: Step<U>): State<U> {
    match t
    case Enter(c, now) =>
      if Fresh(s, now) then s
      else
        var s' :=
          if s.refreshing then s
          else s.(refreshing := true, made := s.made + 1, inFlight := s.inFlight + {s.made + 1});
        if s'.value.Some? then s' else s'.(waiting := s'.waiting[c := s'.made])
    case Finish(r, outcome, at) =>
      var s' := s.(refreshing := false, inFlight := s.inFlight - {r}, closed := s.closed + {s.made});
      (match outcome
       case Failed => s'
       case Computed(u) => s'.(value := Some(u), computed := at, results := s'.results[s.made := u], latest := s.made))
    case Woken(c) => s.(waiting := s.waiting - {c})
    case GaveUp(c) => s.(waiting := s.waiting - {c})
  }

  /** What the caller of a step is given; None while it blocks. */
  function Answer<U>(s: State<U>, t: Step<U>): Option<Option<U>> {
    match t
    case Enter(_, now) => if s.value.Some? then Some(s.value) else None
    case Finish(_, _, _) => None
    case Woken(_) => Some(s.value)
    case GaveUp(_) => Some(s.value)
  }

  /** The current channel is closed by this step although it was closed before: Go would panic. */
  predicate ClosesTwice<U>(s: State<U>, t: Step<U>) { t.Finish? && s.made in s.closed }

  /** A run from the empty cache, every step enabled when it is taken. */
  function After<U>(ts: seq<Step<U>>): State<U> {
    if ts == [] then Start() else Next(After(ts[..|ts| - 1]), ts[|ts| - 1])
  }

  predicate Legal<U>(ts: seq<Step<U>>) {
    ts == [] || (Legal(ts[..|ts| - 1]) && Enabled(After(ts[..|ts| - 1]), ts[|ts| - 1]))
  }

  ghost predicate Inv<U>(s: State<U>) {
    && s.inFlight == (if s.refreshing then {s.made} else {})
    && (s.refreshing ==> s.made > 0)
    && s.closed == (set n | 1 <= n <= s.made && n !in s.inFlight)
    && s.results.Keys <= s.closed
    && (s.value.None? ==> s.results == map[])
    && (s.value.Some? ==>
        s.latest in s.results && s.value.value == s.results[s.latest] && forall n <- s.results :: n <= s.latest)
    && (forall c <- s.waiting :: s.waiting[c] in s.closed + s.inFlight)
  }

  lemma StepKeeps<U>(s: State<U>, t: Step<U>)
    requires Inv(s) && Enabled(s, t)
    ensures Inv(Next(s, t)) && !ClosesTwice(s, t)
    ensures s.value.Some? ==> Next(s, t).value.Some?
  {
    var s' := Next(s, t);
    match t {
      case Enter(_, now) =>
        assert s'.closed == set n | 1 <= n <= s'.made && n !in s'.inFlight;
      case Finish(r, _, _) =>
        assert r == s.made;
        assert s'.closed == set n | 1 <= n <= s'.made && n !in s'.inFlight;
      case _ =>
    }
  }

  lemma {:induction false} RunKeeps<U>(ts: seq<Step<U>>)
    requires Legal(ts)
    ensures Inv(After(ts))
  {
    if ts != [] {
      RunKeeps(ts[..|ts| - 1]);
      StepKeeps(After(ts[..|ts| - 1]), ts[|ts| - 1]);
    }
  }

  lemma {:induction false} PrefixLegal<U>(ts: seq<Step<U>>, k: nat)
    requires Legal(ts) && k <= |ts|
    ensures Legal(ts[..k])
  {
    if k == |ts| {
      assert ts[..k] == ts;
    } else {
      PrefixLegal(ts[..|ts| - 1], k);
      assert ts[..|ts| - 1][..k] == ts[..k];
    }
  }

  /**
    In every reachable interleaving at most one computation is in flight, refreshing says exactly
    whether one is, and no channel is ever closed twice. Every blocked caller holds a channel that is
    closed or that the one refresher in flight will close.
   */
  lemma OneInFlight<U>(ts: seq<Step<U>>, k: nat)
    requires Legal(ts) && k <= |ts|
    ensures var s := After(ts[..k]);
      && |s.inFlight| <= 1
      && (s.refreshing <==> |s.inFlight| == 1)
      && (k < |ts| ==> !ClosesTwice(s, ts[k]))
      && forall c <- s.waiting :: s.waiting[c] in s.closed || (s.inFlight == {s.waiting[c]} && s.waiting[c] == s.made)
  {
    PrefixLegal(ts, k);
    RunKeeps(ts[..k]);
    if k < |ts| {
      PrefixLegal(ts, k + 1);
      assert ts[..k + 1][..k] == ts[..k];
      StepKeeps(After(ts[..k]), ts[k]);
    }
  }

  /** Once there is a value there is one for ever. */
  lemma {:induction false} ValueStays<U>(ts: seq<Step<U>>, k: nat)
    requires Legal(ts) && k <= |ts| && After(ts[..k]).value.Some?
    ensures After(ts).value.Some?
  {
    if k == |ts| {
      assert ts[..k] == ts;
    } else {
      var init := ts[..|ts| - 1];
      assert init[..k] == ts[..k];
      ValueStays(init, k);
      RunKeeps(init);
      StepKeeps(After(init), ts[|ts| - 1]);
    }
  }

  /**
    Whoever is answered gets the result of the latest successful refresh, and nothing only while no
    refresh has succeeded; so a cold caller woken after its refresh succeeded gets a value.
   */
  lemma AnswersAreLatest<U>(ts: seq<Step<U>>, t: Step<U>)
    requires Legal(ts) && Enabled(After(ts), t) && Answer(After(ts), t).Some?
    ensures var s := After(ts);
      && (Answer(s, t).value.None? <==> s.results == map[])
      && (Answer(s, t).value.Some? ==>
            s.latest in s.results && Answer(s, t).value.value == s.results[s.latest] &&
            forall n <- s.results :: n <= s.latest)
      && (t.Woken? && s.waiting[t.who] in s.results ==> Answer(s, t).value.Some?)
  {
    RunKeeps(ts);
  }

  // ----- When a refresh is started, and how old a value is -----

  /** The value is from a refresh that finished no more than two minutes ago. */
  predicate Young<U>(s: State<U>, now: int) { s.value.Some? && now <= s.computed + 120_000_000_000 }

  /**
    A caller that finds a young value starts nothing. One that finds an older one is served it all the
    same and leaves a refresh in flight, as one that finds none does, which then waits for it.
   */
  lemma EnterMeans<U>(ts: seq<Step<U>>, caller: Caller, now: int)
    requires Legal(ts) && Enabled(After(ts), Enter(caller, now))
    ensures var s, t := After(ts), Enter(caller, now);
      && (Young(s, now) ==> Next(s, t) == s)
      && (!Young(s, now) ==> Next(s, t).inFlight == {Next(s, t).made})
      && (!Young(s, now) && s.inFlight == {} ==> Next(s, t).made == s.made + 1)
      && (s.inFlight != {} ==> Next(s, t).made == s.made && Next(s, t).inFlight == s.inFlight)
      && (s.value.Some? ==> Answer(s, t) == Some(s.value) && Next(s, t).waiting == s.waiting)
      && (s.value.None? ==> Answer(s, t) == None && Next(s, t).waiting == s.waiting[caller := Next(s, t).made])
      && Next(s, t).value == s.value && Next(s, t).computed == s.computed
  {
    RunKeeps(ts);
  }

  /** A blocked caller that goes on, woken or out of patience, is given what value there is; it changes nothing else. */
  lemma LeaveMeans<U>(s: State<U>, t: Step<U>)
    requires Enabled(s, t) && (t.Woken? || t.GaveUp?)
    ensures Answer(s, t) == Some(s.value)
    ensures Next(s, t).waiting.Keys == s.waiting.Keys - {t.who}
    ensures Next(s, t) == s.(waiting := Next(s, t).waiting)
    ensures forall c <- Next(s, t).waiting :: Next(s, t).waiting[c] == s.waiting[c]
    ensures forall now :: Enabled(Next(s, t), Enter(t.who, now))
  {
  }

  /**
    Nobody is stuck: whoever is not blocked may call, and whoever is may give up at any time and goes on
    as soon as the refresh in flight has finished, or at once when there is none.
   */
  lemma NobodyIsStuck<U>(ts: seq<Step<U>>, c: Caller)
    requires Legal(ts)
    ensures var s := After(ts);
      && (c !in s.waiting ==> forall now :: Enabled(s, Enter(c, now)))
      && (c in s.waiting ==> Enabled(s, GaveUp(c)))
      && (c in s.waiting && s.inFlight == {} ==> Enabled(s, Woken(c)))
      && (s.inFlight != {} ==> forall outcome, at :: Enabled(s, Finish(s.made, outcome, at)))
      && (c in s.waiting && s.inFlight != {} ==>
            forall outcome, at :: Enabled(Next(s, Finish(s.made, outcome, at)), Woken(c)))
  {
    RunKeeps(ts);
  }

  /** A refresh that succeeded, and none after it did. */
  ghost predicate LastSuccess<U>(ts: seq<Step<U>>, i: nat) {
    && i < |ts| && ts[i].Finish? && ts[i].outcome.Computed?
    && forall k | i < k < |ts| :: !(ts[k].Finish? && ts[k].outcome.Computed?)
  }

  /** The value and its time are those of the last refresh that succeeded; one that failed changes neither. */
  lemma {:induction false} ValueIsLastSuccess<U>(ts: seq<Step<U>>)
    requires Legal(ts)
    ensures After(ts).value.Some? <==> exists i: nat :: LastSuccess(ts, i)
    ensures forall i: nat | LastSuccess(ts, i) ::
              After(ts).value == Some(ts[i].outcome.usage) && After(ts).computed == ts[i].at
  {
    if ts != [] {
      var n := |ts| - 1;
      ValueIsLastSuccess(ts[..n]);
      if ts[n].Finish? && ts[n].outcome.Computed? {
        assert LastSuccess(ts, n);
        assert forall i: nat | LastSuccess(ts, i) :: i == n;
      } else {
        assert forall i: nat :: LastSuccess(ts, i) <==> LastSuccess(ts[..n], i);
      }
    }
  }

  /** The cache itself: each method is one section under the lock, and tells the step it took. */
  class Cache<U> {
    var value: Option<U>
    var computed: int
    var refreshing: bool
    var done: nat
    ghost var around: State<U>

    ghost predicate Matches()
      reads this
    {
      around.value == value && around.computed == computed && around.refreshing == refreshing && around.made == done
    }

    constructor ()
      ensures Matches() && around == Start()
    {
      value, computed, refreshing, done := None, 0, false, 0;
      around := Start();
    }

    /** The first section of get: a fresh or stale value is served at once; nothing means: wait on the channel. */
    method EnterGet(caller: Caller, now: int) returns (served: Option<U>, wait: nat)
      requires Matches() && Enabled(around, Enter(caller, now))
      modifies this
      ensures Matches() && around == Next(old(around), Enter(caller, now))
      ensures served == old(value)
      ensures served.None? ==> caller in around.waiting && around.waiting[caller] == wait == done
    {
      around := Next(around, Enter(caller, now));
      if value.Some? && now - computed <= TTL {
        return value, done;
      }
      if !refreshing {
        refreshing := true;
        done := done + 1;
      }
      return value, done;
    }

    /** The second section of get, after the channel or the patience of the caller. */
    method LeaveGet(caller: Caller, ghost woken: bool) returns (served: Option<U>)
      requires Matches() && Enabled(around, if woken then Woken(caller) else GaveUp(caller))
      modifies this
      ensures Matches() && around == Next(old(around), if woken then Woken(caller) else GaveUp(caller))
      ensures served == old(value) && value == old(value)
    {
      around := Next(around, if woken then Woken(caller) else GaveUp(caller));
      return value;
    }

    /** The section of refresh after the computation. */
    method FinishRefresh(ghost refresher: nat, outcome: Outcome<U>, now: int)
      requires Matches() && Enabled(around, Finish(refresher, outcome, now))
      modifies this
      ensures Matches() && around == Next(old(around), Finish(refresher, outcome, now))
    {
      around := Next(around, Finish(refresher, outcome, now));
      refreshing := false;
      if outcome.Failed? {
        return;
      }
      value := Some(outcome.usage);
      computed := now;
    }
  }
}
