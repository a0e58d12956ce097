/** Which run of a backup schedule was missed, and which comes next. */
module NextSchedule {
  import opened Wrappers

  /** An instant is a number of nanoseconds since the zero time. A cron schedule answers the zero time when it
      finds no later firing. */
  const ZERO_TIME := 0
  const SECOND := 1_000_000_000
  const DEFAULT_ALLOWED_MISSED_RUNS := 100

  datatype Spec = Spec(startingDeadlineSeconds: Option<int>, allowedMissedRuns: Option<int>)

  datatype Runs = Runs(missed: nat, next: nat)

  datatype Error = UnparsableSchedule | TooManyMissedRuns

  function GetMissedRunsLimit(spec: Spec): int
  {
    match spec.allowedMissedRuns
    case None => DEFAULT_ALLOWED_MISSED_RUNS
    case Some(limit) => limit
  }

  /** Nothing at or before this instant is looked at: the latest job, or the creation of the schedule, or the
      starting deadline, whichever is later. */
  function Start(spec: Spec, creation: nat, latest: Option<nat>, now: nat): (start: nat)
    ensures (if latest.Some? then latest.value else creation) <= start
    ensures spec.startingDeadlineSeconds.Some? ==> now - spec.startingDeadlineSeconds.value * SECOND <= start
    ensures || start == (if latest.Some? then latest.value else creation)
            || (spec.startingDeadlineSeconds.Some? && start == now - spec.startingDeadlineSeconds.value * SECOND)
  {
    var mostRecent := match latest case None => creation case Some(t) => t;
    match spec.startingDeadlineSeconds
    case None => mostRecent
    case Some(seconds) => if now - seconds * SECOND > mostRecent then now - seconds * SECOND else mostRecent
  }

  /** Follow the schedule from its firing at `t`, until it passes `now`. */
  function Walk(next: nat -> nat, t: nat, now: nat, limit: int, last: nat, missedRuns: nat): Result<nat, Error>
    decreases limit - missedRuns
  {
    if t > now then Ok(last)
    else if missedRuns + 1 > limit then Err(TooManyMissedRuns)
    else Walk(next, next(t), now, limit, t, missedRuns + 1)
  }

  function Outcome(schedule: Option<nat -> nat>, spec: Spec, start: nat, now: nat): Result<Runs, Error>
  {
    if schedule.None? then Err(UnparsableSchedule)
    else
      var next := schedule.value;
      if start > now then Ok(Runs(ZERO_TIME, next(now)))
      else
        match Walk(next, next(start), now, GetMissedRunsLimit(spec), ZERO_TIME, 0)
        case Err(e) => Err(e)
        case Ok(last) => Ok(Runs(last, next(now)))
  }

  method GetNextSchedule(schedule: Option<nat -> nat>, spec: Spec, creation: nat, now: nat, latest: Option<nat>)
    returns (r: Result<Runs, Error>)
    ensures r == Outcome(schedule, spec, Start(spec, creation, latest, now), now)
  {
    if schedule.None? {
      return Err(UnparsableSchedule);
    }
    var next := schedule.value;
    var mostRecentTime: nat := creation;
    if latest.Some? {
      mostRecentTime := latest.value;
    }
    if spec.startingDeadlineSeconds.Some? {
      var schedulingDeadline := now - spec.startingDeadlineSeconds.value * SECOND;
      if schedulingDeadline > mostRecentTime {
        mostRecentTime := schedulingDeadline;
      }
    }
    if mostRecentTime > now {
      return Ok(Runs(ZERO_TIME, next(now)));
    }
    var lastMissed: nat, missedRuns: nat := ZERO_TIME, 0;
    var limit := GetMissedRunsLimit(spec);
    var t: nat := next(mostRecentTime);
    while t <= now
      invariant missedRuns == 0 || missedRuns <= limit
      invariant Walk(next, t, now, limit, lastMissed, missedRuns)
             == Walk(next, next(mostRecentTime), now, limit, ZERO_TIME, 0)
      decreases if limit > missedRuns then limit - missedRuns else 0
    {
      lastMissed := t;
      missedRuns := missedRuns + 1;
      if missedRuns > limit {
        return Err(TooManyMissedRuns);
      }
      t := next(t);
    }
    return Ok(Runs(lastMissed, next(now)));
  }

  // ------------------------------------------------------------ what a cron schedule answers

  /** `r` is the first firing after `t`, or the zero time if there is none until `limit`. */
  ghost predicate FirstAfter(r: nat, t: nat, fires: nat -> bool, limit: int)
  {
    if r == ZERO_TIME then forall u: nat | t < u <= limit :: !fires(u)
    else fires(r) && t < r <= limit && forall u: nat | t < u < r :: !fires(u)
  }

  /** `next` searches the firings up to some horizon, which lies the later the later the search starts. */
  ghost predicate IsCron(next: nat -> nat, fires: nat -> bool, horizon: nat -> int)
  {
    && (forall t: nat, u: nat | t <= u :: horizon(t) <= horizon(u))
    && forall t: nat :: FirstAfter(next(t), t, fires, horizon(t))
  }

  ghost function Due(fires: nat -> bool, start: nat, now: nat): set<nat>
  {
    set t: nat | start < t <= now && fires(t)
  }

  /** After the start, and after each due firing, there is another one within the horizon. */
  ghost predicate NoGap(fires: nat -> bool, horizon: nat -> int, start: nat, now: nat)
  {
    forall t | t == start || t in Due(fires, start, now) :: Continues(fires, t, horizon(t))
  }

  ghost predicate Continues(fires: nat -> bool, t: nat, limit: int)
  {
    exists u: nat :: fires(u) && t < u <= limit
  }

  ghost predicate IsGreatest(t: nat, s: set<nat>)
  {
    t in s && forall u | u in s :: u <= t
  }

  // ------------------------------------------------------------ the walk finds the due firings

  lemma DueAfterFirst(fires: nat -> bool, start: nat, r: nat, now: nat)
    requires fires(r) && start < r <= now && forall u: nat | start < u < r :: !fires(u)
    ensures Due(fires, start, now) == {r} + Due(fires, r, now)
    ensures |Due(fires, start, now)| == 1 + |Due(fires, r, now)|
  {
    assert Due(fires, start, now) == {r} + Due(fires, r, now);
    assert r !in Due(fires, r, now);
  }

  lemma {:induction false} WalkFindsDue(next: nat -> nat, fires: nat -> bool, horizon: nat -> int, start: nat, now: nat,
                                        limit: int, last: nat, missedRuns: nat)
    requires IsCron(next, fires, horizon) && NoGap(fires, horizon, start, now)
    ensures var due, r := Due(fires, start, now), Walk(next, next(start), now, limit, last, missedRuns);
            && (r.Ok? <==> due == {} || missedRuns + |due| <= limit)
            && (r.Err? ==> r.error == TooManyMissedRuns)
            && (r.Ok? ==> if due == {} then r.value == last else IsGreatest(r.value, due))
    decreases limit - missedRuns
  {
    var r := next(start);
    FirstDue(next, fires, horizon, start, now);
    hide IsCron, NoGap, Due;
    if r <= now && missedRuns + 1 <= limit {
      WalkFindsDue(next, fires, horizon, r, now, limit, r, missedRuns + 1);
    }
  }

  lemma FirstDue(next: nat -> nat, fires: nat -> bool, horizon: nat -> int, start: nat, now: nat)
    requires IsCron(next, fires, horizon) && NoGap(fires, horizon, start, now)
    ensures var r, due := next(start), Due(fires, start, now);
            if r > now then due == {}
            else
              && NoGap(fires, horizon, r, now) && |due| == 1 + |Due(fires, r, now)|
              && r in due
              && (forall u | u in due :: u == r || u in Due(fires, r, now))
              && (forall u | u in Due(fires, r, now) :: u in due && u > r)
  {
    var r := next(start);
    assert FirstAfter(r, start, fires, horizon(start)) && Continues(fires, start, horizon(start));
    if r > now {
      assert Due(fires, start, now) == {};
    } else {
      DueAfterFirst(fires, start, r, now);
    }
  }

  /** No search that starts at or before a gap gets across it. */
  lemma {:induction false} WalkStuckBeforeGap(next: nat -> nat, fires: nat -> bool, horizon: nat -> int, t: nat,
                                              gap: nat, now: nat, limit: int, last: nat, missedRuns: nat)
    requires IsCron(next, fires, horizon)
    requires t <= gap <= now && next(gap) == ZERO_TIME
    ensures Walk(next, t, now, limit, last, missedRuns) == Err(TooManyMissedRuns)
    decreases limit - missedRuns
  {
    if missedRuns + 1 <= limit {
      StaysBeforeGap(next, fires, horizon, t, gap);
      WalkStuckBeforeGap(next, fires, horizon, next(t), gap, now, limit, t, missedRuns + 1);
    }
  }

  lemma StaysBeforeGap(next: nat -> nat, fires: nat -> bool, horizon: nat -> int, t: nat, gap: nat)
    requires IsCron(next, fires, horizon) && t <= gap && next(gap) == ZERO_TIME
    ensures next(t) <= gap
  {
    assert FirstAfter(next(gap), gap, fires, horizon(gap));
    assert FirstAfter(next(t), t, fires, horizon(t));
  }

  /** The call succeeds if and only if the schedule has no gap and not too many runs are due; it then returns the
      greatest due instant, or the zero time if none is due, and the first instant after now. */
  lemma FindsTheMissedRun(next: nat -> nat, fires: nat -> bool, horizon: nat -> int, spec: Spec, start: nat, now: nat)
    requires IsCron(next, fires, horizon) && start <= now
    ensures var r, due := Outcome(Some(next), spec, start, now), Due(fires, start, now);
            && (r.Ok? <==> NoGap(fires, horizon, start, now)
                           && (due == {} || |due| <= match spec.allowedMissedRuns case None => 100 case Some(n) => n))
            && (r.Err? ==> r.error == TooManyMissedRuns)
            && (r.Ok? ==>
                  && (if due == {} then r.value.missed == ZERO_TIME else IsGreatest(r.value.missed, due))
                  && r.value.next > now && FirstAfter(r.value.next, now, fires, horizon(now)))
  {
    if NoGap(fires, horizon, start, now) {
      WalkFindsDue(next, fires, horizon, start, now, GetMissedRunsLimit(spec), ZERO_TIME, 0);
      assert FirstAfter(next(now), now, fires, horizon(now));
      var r := Outcome(Some(next), spec, start, now);
      if r.Ok? {
        var due := Due(fires, start, now);
        var last := if due == {} then start else r.value.missed;
        assert Continues(fires, last, horizon(last));
        var u: nat :| fires(u) && last < u <= horizon(last);
        assert u !in due;
        assert u <= horizon(now);
      }
    } else {
      var gap :| (gap == start || gap in Due(fires, start, now)) && !Continues(fires, gap, horizon(gap));
      assert FirstAfter(next(gap), gap, fires, horizon(gap));
      StaysBeforeGap(next, fires, horizon, start, gap);
      WalkStuckBeforeGap(next, fires, horizon, next(start), gap, now, GetMissedRunsLimit(spec), ZERO_TIME, 0);
    }
  }

  /** A schedule that does not parse is an error; and if the start lies in the future, nothing was missed. */
  lemma OtherOutcomes(next: nat -> nat, spec: Spec, start: nat, now: nat)
    ensures Outcome(None, spec, start, now) == Err(UnparsableSchedule)
    ensures start > now ==> Outcome(Some(next), spec, start, now) == Ok(Runs(ZERO_TIME, next(now)))
  {
  }

  /** A schedule that never fires has no missed run, and the call still fails with too many of them. */
  lemma NeverFiringFails(next: nat -> nat, spec: Spec, start: nat, now: nat)
    requires forall t: nat :: next(t) == ZERO_TIME
    requires start <= now
    ensures Due(_ => false, start, now) == {}
    ensures Outcome(Some(next), spec, start, now) == Err(TooManyMissedRuns)
  {
    WalkStuckBeforeGap(next, _ => false, t => t, next(start), now, now, GetMissedRunsLimit(spec), ZERO_TIME, 0);
  }

  // ------------------------------------------------------------ the latest job

  /** The annotation of a job that says which instant it was created for. */
  datatype Stamp = Absent | Malformed | At(time: nat)

  ghost predicate IsLatest(jobs: seq<Stamp>, latest: Option<nat>)
  {
    match latest
    case None => forall i | 0 <= i < |jobs| :: !jobs[i].At?
    case Some(t) => At(t) in jobs && forall i | 0 <= i < |jobs| && jobs[i].At? :: jobs[i].time <= t
  }

  method LatestScheduledTime(jobs: seq<Stamp>) returns (mostRecentTime: Option<nat>)
    ensures IsLatest(jobs, mostRecentTime)
  {
    mostRecentTime := None;
    for i := 0 to |jobs|
      invariant IsLatest(jobs[..i], mostRecentTime)
    {
      assert jobs[..i + 1] == jobs[..i] + [jobs[i]];
      if jobs[i].At? && (mostRecentTime.None? || mostRecentTime.value < jobs[i].time) {
        mostRecentTime := Some(jobs[i].time);
      }
    }
    assert jobs[..|jobs|] == jobs;
  }

  // ------------------------------------------------------------ runs

  /** One reconciliation: the schedule in force, its firings, and the clock. */
  datatype Round = Round(next: nat -> nat, fires: nat -> bool, horizon: nat -> int, spec: Spec, creation: nat, now: nat)

  /** A reconciliation with an up-to-date list of jobs either creates nothing, because nothing is due or something
      prevents it, or it creates the job of the missed run. */
  ghost predicate Reconciled(jobs: seq<Stamp>, jobs': seq<Stamp>, r: Round)
  {
    || jobs' == jobs
    || exists latest :: IsLatest(jobs, latest) && CreatedFor(jobs, jobs', r, latest)
  }

  ghost predicate CreatedFor(jobs: seq<Stamp>, jobs': seq<Stamp>, r: Round, latest: Option<nat>)
  {
    var outcome := Outcome(Some(r.next), r.spec, Start(r.spec, r.creation, latest, r.now), r.now);
    outcome.Ok? && outcome.value.missed != ZERO_TIME && jobs' == jobs + [At(outcome.value.missed)]
  }

  ghost predicate IsHistory(states: seq<seq<Stamp>>, rounds: seq<Round>)
  {
    && |states| == |rounds| + 1
    && (forall k | 0 <= k < |rounds| :: IsCron(rounds[k].next, rounds[k].fires, rounds[k].horizon))
    && forall k | 0 <= k < |rounds| :: Reconciled(states[k], states[k + 1], rounds[k])
  }

  /** A created job is for an instant of the schedule that has come, later than that of every other job. */
  lemma CreatedIsNewAndDue(jobs: seq<Stamp>, jobs': seq<Stamp>, r: Round, latest: Option<nat>)
    requires IsCron(r.next, r.fires, r.horizon) && IsLatest(jobs, latest) && CreatedFor(jobs, jobs', r, latest)
    ensures |jobs'| == |jobs| + 1 && jobs' == jobs + [jobs'[|jobs|]] && jobs'[|jobs|].At?
    ensures var t := jobs'[|jobs|].time;
            && r.fires(t) && t <= r.now
            && forall i | 0 <= i < |jobs| && jobs[i].At? :: jobs[i].time < t
  {
    var start := Start(r.spec, r.creation, latest, r.now);
    assert start <= r.now;
    FindsTheMissedRun(r.next, r.fires, r.horizon, r.spec, start, r.now);
  }

  /** From position `n` on, every job has an instant, and a later one than every job before it. */
  ghost predicate IncreasingFrom(jobs: seq<Stamp>, n: nat)
  {
    forall j | n <= j < |jobs| ::
      jobs[j].At? && forall i | 0 <= i < j && jobs[i].At? :: jobs[i].time < jobs[j].time
  }

  /** Over any run, whatever the clock and the changes of the schedule, jobs are created for strictly increasing
      instants. */
  lemma {:induction false} InstantsIncrease(states: seq<seq<Stamp>>, rounds: seq<Round>)
    requires IsHistory(states, rounds)
    ensures |states[0]| <= |states[|rounds|]| && IncreasingFrom(states[|rounds|], |states[0]|)
  {
    if rounds != [] {
      var n := |rounds| - 1;
      InstantsIncrease(states[..n + 1], rounds[..n]);
      var jobs, jobs', r := states[n], states[n + 1], rounds[n];
      assert states[..n + 1][0] == states[0] && states[..n + 1][n] == jobs;
      assert Reconciled(jobs, jobs', r);
      if jobs' != jobs {
        var latest :| IsLatest(jobs, latest) && CreatedFor(jobs, jobs', r, latest);
        CreatedIsNewAndDue(jobs, jobs', r, latest);
      }
    }
  }
}
