/** Package toposerver: the process-wide pool of topology connections.

    Goroutines interleave at the granularity of the pool's locks: every step below is one critical section, or
    one read of the channel that announces the outcome of a connection attempt. Connections are numbered in the
    order in which their attempts were started. */
module ConnPool {

  const IDLE_TTL := 60
  const LIVENESS_CHECK_PERIOD := 10

  datatype Phase = Connecting | Failed | Up

  /** `closes` counts the calls of `Server.Close`. */
  datatype Conn = Conn(params: string, phase: Phase, refCount: int, created: int, lastOpened: int, lastChecked: int,
                       closes: nat)

  /** The pool: all connections ever attempted, the map of active ones, and the list of dead ones. */
  datatype Shared = Shared(conns: seq<Conn>, active: map<string, nat>, dead: seq<nat>)
  {
    ghost predicate WellFormed()
    {
      && (forall p | p in active :: active[p] < |conns| && conns[active[p]].params == p)
      && (forall i | 0 <= i < |dead| :: dead[i] < |conns|)
    }

    function With(id: nat, c: Conn): Shared
      requires id < |conns|
    {
      this.(conns := conns[id := c])
    }
  }

  // ------------------------------------------------------------ critical sections

  /** `get`: the pool afterwards, the connection, and whether a liveness check is started. */
  ghost function Got(sh: Shared, params: string, now: int): (Shared, nat, bool)
    requires sh.WellFormed()
  {
    if params in sh.active && !sh.conns[sh.active[params]].phase.Failed? then
      (sh, sh.active[params], sh.conns[sh.active[params]].phase.Up?)
    else
      (Shared(sh.conns + [Conn(params, Connecting, 0, now, now, now, 0)], sh.active[params := |sh.conns|], sh.dead),
       |sh.conns|, false)
  }

  predicate ShouldCheck(c: Conn, now: int)
  {
    now - c.lastChecked >= LIVENESS_CHECK_PERIOD
  }

  /** The connection `id` failed its liveness check. */
  ghost function Buried(sh: Shared, params: string, id: nat): Shared
  {
    if params in sh.active && sh.active[params] == id
    then sh.(active := sh.active - {params}, dead := sh.dead + [id])
    else sh
  }

  predicate Idle(c: Conn, now: int)
  {
    c.refCount <= 0 && now - c.lastOpened > IDLE_TTL
  }

  /** The garbage collector looks at the active connection for `params`. */
  ghost function Swept(sh: Shared, params: string, now: int): Shared
    requires sh.WellFormed() && params in sh.active
  {
    var id := sh.active[params];
    var c := sh.conns[id];
    if c.phase.Failed? then sh.(active := sh.active - {params})
    else if Idle(c, now) then sh.With(id, c.(closes := c.closes + 1)).(active := sh.active - {params})
    else sh
  }

  /** The garbage collector looks at the dead connection `id`: the pool afterwards, and whether to keep it. */
  ghost function Reaped(sh: Shared, id: nat): (Shared, bool)
    requires id < |sh.conns|
  {
    var c := sh.conns[id];
    if c.refCount <= 0 then (sh.With(id, c.(closes := c.closes + 1)), false) else (sh, true)
  }

  // ------------------------------------------------------------ what they mean

  /** The connection is in the map under its parameters, and its attempt has not failed. It is a new attempt exactly if
      there was none or a failed one; a check is started exactly if it is up; nothing else has changed. */
  ghost predicate IsGot(sh: Shared, params: string, now: int, sh': Shared, id: nat, check: bool)
    requires sh.WellFormed()
  {
    && params in sh'.active && sh'.active[params] == id && id < |sh'.conns|
    && sh'.conns[id].params == params && !sh'.conns[id].phase.Failed?
    && (if params !in sh.active || sh.conns[sh.active[params]].phase.Failed? then
          id == |sh.conns| && sh'.conns == sh.conns + [Conn(params, Connecting, 0, now, now, now, 0)]
        else
          id == sh.active[params] && sh'.conns == sh.conns)
    && (check <==> sh'.conns[id].phase.Up?)
    && sh'.dead == sh.dead && sh'.active - {params} == sh.active - {params}
  }

  lemma GotMeans(sh: Shared, params: string, now: int)
    requires sh.WellFormed()
    ensures var (sh', id, check) := Got(sh, params, now); IsGot(sh, params, now, sh', id, check)
  {
  }

  /** The connection leaves the map exactly if it is the one under these parameters, and then goes to the dead list. */
  ghost predicate IsBuried(sh: Shared, params: string, id: nat, sh': Shared)
  {
    && sh'.conns == sh.conns
    && if params in sh.active && sh.active[params] == id
       then sh'.active == sh.active - {params} && sh'.dead == sh.dead + [id]
       else sh'.active == sh.active && sh'.dead == sh.dead
  }

  lemma BuriedMeans(sh: Shared, params: string, id: nat)
    ensures IsBuried(sh, params, id, Buried(sh, params, id))
  {
  }

  /** A failed attempt is forgotten; a connection without references that was last opened more than a minute ago is
      closed and forgotten; any other one is kept as it is. */
  ghost predicate IsSwept(sh: Shared, params: string, now: int, sh': Shared)
    requires sh.WellFormed() && params in sh.active
  {
    var id := sh.active[params];
    var c := sh.conns[id];
    var idle := !c.phase.Failed? && c.refCount <= 0 && now - c.lastOpened > 60;
    && sh'.conns == (if idle then sh.conns[id := c.(closes := c.closes + 1)] else sh.conns)
    && sh'.active == (if idle || c.phase.Failed? then sh.active - {params} else sh.active)
    && sh'.dead == sh.dead
  }

  lemma SweptMeans(sh: Shared, params: string, now: int)
    requires sh.WellFormed() && params in sh.active
    ensures IsSwept(sh, params, now, Swept(sh, params, now))
  {
  }

  // ------------------------------------------------------------ goroutines

  datatype Thread =
    | Opening(params: string)          // Open, before get
    | Fetched(id: nat)                 // Open, before counting itself
    | Waiting(id: nat)                 // Open, waiting for the attempt or the timeout
    | Failing(id: nat)                 // Open, about to take back its reference
    | Holding(id: nat)                 // Open has returned the connection, Close has not been called
    | Spawned(params: string)          // checkConn, before it got the read lock
    | Checking(params: string)         // checkConn, before it looks into the map
    | Found(params: string, id: nat)   // checkConn, before shouldCheck
    | Probing(params: string, id: nat) // checkConn, talking to the server
    | Burying(params: string, id: nat) // checkConn, the server did not answer
  {
    /** Whether the goroutine holds `openMu` for reading. */
    predicate Reads()
    {
      !Holding? && !Spawned?
    }

    /** The connection whose `refCount` includes this goroutine. */
    predicate CountsFor(c: nat)
    {
      (Waiting? || Failing? || Holding?) && id == c
    }

    predicate Uses(c: nat)
    {
      (Fetched? || Waiting? || Failing? || Holding? || Found? || Probing? || Burying?) && id == c
    }
  }

  datatype Collector =
    | Off
    | Sweeping(todo: set<string>)
    | Reaping(left: seq<nat>, stillUsed: seq<nat>)

  datatype Pool = Pool(sh: Shared, threads: map<nat, Thread>, gc: Collector, now: int)

  datatype Step =
    | StartOpen(t: nat, params: string)
    | Get(t: nat, check: nat)
    | CountIn(t: nat)
    | OpenSucceeds(t: nat)
    | OpenFails(t: nat)
    | CountOut(t: nat)
    | Close(t: nat)
    | StartCheck(t: nat)
    | LookUp(t: nat)
    | DecideCheck(t: nat)
    | ProbeEnds(t: nat, ok: bool)
    | Bury(t: nat)
    | Connect(id: nat, ok: bool)
    | GcStart
    | GcSweep(params: string)
    | GcSwept
    | GcReap
    | GcEnd
    | Tick(now: int)

  /** A connection attempt ends, one way or the other, before its idle time is up. */
  ghost predicate Timely(s: Pool, now: int)
  {
    forall id | 0 <= id < |s.sh.conns| && s.sh.conns[id].phase.Connecting? :: now - s.sh.conns[id].created <= IDLE_TTL
  }

  ghost predicate Enabled(s: Pool, step: Step)
    requires s.sh.WellFormed()
  {
    var threads, conns := s.threads, s.sh.conns;
    match step
    case StartOpen(t, params) => t !in threads && s.gc.Off?
    case Get(t, check) => t in threads && threads[t].Opening? && check !in threads
    case CountIn(t) => t in threads && threads[t].Fetched? && threads[t].id < |conns|
    case OpenSucceeds(t) =>
      t in threads && threads[t].Waiting? && threads[t].id < |conns| && conns[threads[t].id].phase.Up?
    case OpenFails(t) => t in threads && threads[t].Waiting?
    case CountOut(t) => t in threads && threads[t].Failing? && threads[t].id < |conns|
    case Close(t) => t in threads && threads[t].Holding? && threads[t].id < |conns|
    case StartCheck(t) => t in threads && threads[t].Spawned? && s.gc.Off?
    case LookUp(t) => t in threads && threads[t].Checking?
    case DecideCheck(t) => t in threads && threads[t].Found? && threads[t].id < |conns|
    case ProbeEnds(t, ok) => t in threads && threads[t].Probing?
    case Bury(t) => t in threads && threads[t].Burying?
    case Connect(id, ok) => id < |conns| && conns[id].phase.Connecting?
    case GcStart => s.gc.Off? && forall t | t in threads :: !threads[t].Reads()
    case GcSweep(params) => s.gc.Sweeping? && params in s.gc.todo && params in s.sh.active
    case GcSwept => s.gc.Sweeping? && s.gc.todo == {}
    case GcReap => s.gc.Reaping? && s.gc.left != [] && s.gc.left[0] < |conns|
    case GcEnd => s.gc.Reaping? && s.gc.left == []
    case Tick(now) => s.now <= now && Timely(s, now)
  }

  /** The state after a step. */
  ghost function Next(s: Pool, step: Step): Pool
    requires s.sh.WellFormed() && Enabled(s, step)
  {
    var sh, threads, conns := s.sh, s.threads, s.sh.conns;
    match step
    case StartOpen(t, params) => s.(threads := threads[t := Opening(params)])
    case Get(t, check) =>
      var params := threads[t].params;
      var (sh', id, spawn) := Got(sh, params, s.now);
      s.(sh := sh',
         threads := if spawn then threads[t := Fetched(id)][check := Spawned(params)] else threads[t := Fetched(id)])
    case CountIn(t) =>
      var id := threads[t].id;
      s.(sh := sh.With(id, conns[id].(refCount := conns[id].refCount + 1, lastOpened := s.now)),
         threads := threads[t := Waiting(id)])
    case OpenSucceeds(t) => s.(threads := threads[t := Holding(threads[t].id)])
    case OpenFails(t) => s.(threads := threads[t := Failing(threads[t].id)])
    case CountOut(t) =>
      var id := threads[t].id;
      s.(sh := sh.With(id, conns[id].(refCount := conns[id].refCount - 1)), threads := threads - {t})
    case Close(t) =>
      var id := threads[t].id;
      s.(sh := sh.With(id, conns[id].(refCount := conns[id].refCount - 1)), threads := threads - {t})
    case StartCheck(t) => s.(threads := threads[t := Checking(threads[t].params)])
    case LookUp(t) =>
      var params := threads[t].params;
      if params in sh.active && conns[sh.active[params]].phase.Up?
      then s.(threads := threads[t := Found(params, sh.active[params])])
      else s.(threads := threads - {t})
    case DecideCheck(t) =>
      var id := threads[t].id;
      if ShouldCheck(conns[id], s.now)
      then s.(sh := sh.With(id, conns[id].(lastChecked := s.now)),
              threads := threads[t := Probing(threads[t].params, id)])
      else s.(threads := threads - {t})
    case ProbeEnds(t, ok) =>
      if ok then s.(threads := threads - {t})
      else s.(threads := threads[t := Burying(threads[t].params, threads[t].id)])
    case Bury(t) => s.(sh := Buried(sh, threads[t].params, threads[t].id), threads := threads - {t})
    case Connect(id, ok) => s.(sh := sh.With(id, conns[id].(phase := if ok then Up else Failed)))
    case GcStart => s.(gc := Sweeping(sh.active.Keys))
    case GcSweep(params) => s.(sh := Swept(sh, params, s.now), gc := Sweeping(s.gc.todo - {params}))
    case GcSwept => s.(gc := Reaping(sh.dead, []))
    case GcReap =>
      var id := s.gc.left[0];
      var (sh', keep) := Reaped(sh, id);
      s.(sh := sh', gc := Reaping(s.gc.left[1..], if keep then s.gc.stillUsed + [id] else s.gc.stillUsed))
    case GcEnd => s.(sh := sh.(dead := s.gc.stillUsed), gc := Off)
    case Tick(now) => s.(now := now)
  }

  // ------------------------------------------------------------ invariant

  /** Pending opens and unreturned successful opens. */
  ghost function Users(threads: map<nat, Thread>, id: nat): set<nat>
  {
    set t | t in threads && threads[t].CountsFor(id)
  }

  ghost predicate Counted(s: Pool)
  {
    forall id | 0 <= id < |s.sh.conns| :: s.sh.conns[id].refCount == |Users(s.threads, id)|
  }

  /** The dead connections that the collector has not closed. */
  ghost function DeadList(s: Pool): seq<nat>
  {
    if s.gc.Reaping? then s.gc.stillUsed + s.gc.left else s.sh.dead
  }

  ghost predicate IsActive(sh: Shared, id: nat)
    requires id < |sh.conns|
  {
    sh.conns[id].params in sh.active && sh.active[sh.conns[id].params] == id
  }

  /** In how many places the connection is: the map, the dead list (counted with repetitions), the closed ones. */
  ghost function Places(s: Pool, id: nat): nat
    requires id < |s.sh.conns|
  {
    (if IsActive(s.sh, id) then 1 else 0) + multiset(DeadList(s))[id] + s.sh.conns[id].closes
  }

  ghost predicate Located(s: Pool, id: nat)
    requires id < |s.sh.conns|
  {
    match s.sh.conns[id].phase
    case Up => Places(s, id) == 1
    case Connecting => IsActive(s.sh, id) && Places(s, id) == 1
    case Failed => id !in DeadList(s) && s.sh.conns[id].closes == 0
  }

  ghost predicate ThreadOk(s: Pool, t: nat)
    requires t in s.threads
  {
    var th := s.threads[t];
    && (th.Reads() ==> s.gc.Off?)
    && ((th.Fetched? || th.Waiting? || th.Failing? || th.Holding? || th.Found? || th.Probing? || th.Burying?) ==>
          && th.id < |s.sh.conns|
          && s.sh.conns[th.id].closes == 0
          && (th.Holding? || th.Found? || th.Probing? || th.Burying? ==> s.sh.conns[th.id].phase.Up?)
          && (th.Found? || th.Probing? || th.Burying? ==> s.sh.conns[th.id].params == th.params))
  }

  ghost predicate CollectorOk(s: Pool)
  {
    && (s.gc.Sweeping? ==> s.gc.todo <= s.sh.active.Keys)
    && (s.gc.Reaping? ==>
          && (forall i | 0 <= i < |s.gc.left| :: s.gc.left[i] < |s.sh.conns|)
          && forall i | 0 <= i < |s.gc.stillUsed| :: s.gc.stillUsed[i] < |s.sh.conns|)
  }

  ghost predicate Clocked(s: Pool)
  {
    && Timely(s, s.now)
    && forall id | 0 <= id < |s.sh.conns| :: s.sh.conns[id].created <= s.sh.conns[id].lastOpened <= s.now
  }

  ghost predicate Inv(s: Pool)
  {
    && s.sh.WellFormed()
    && Counted(s)
    && (forall id | 0 <= id < |s.sh.conns| :: Located(s, id))
    && (forall t | t in s.threads :: ThreadOk(s, t))
    && CollectorOk(s)
    && Clocked(s)
  }

  // ------------------------------------------------------------ preservation

  lemma UsersSame(threads: map<nat, Thread>, threads': map<nat, Thread>, id: nat)
    requires forall t | t in threads || t in threads' ::
               (t in threads && threads[t].CountsFor(id)) <==> (t in threads' && threads'[t].CountsFor(id))
    ensures Users(threads', id) == Users(threads, id)
  {
  }

  lemma UsersMore(threads: map<nat, Thread>, threads': map<nat, Thread>, t: nat, id: nat)
    requires threads - {t} == threads' - {t}
    requires t in threads' && threads'[t].CountsFor(id)
    requires t in threads ==> !threads[t].CountsFor(id)
    ensures |Users(threads', id)| == |Users(threads, id)| + 1
  {
    forall u | u != t ensures u in threads <==> u in threads' ensures u in threads ==> threads[u] == threads'[u] {
      assert u in threads <==> u in threads - {t};
      assert u in threads' <==> u in threads' - {t};
      assert u in threads ==> threads[u] == (threads - {t})[u];
      assert u in threads' ==> threads'[u] == (threads' - {t})[u];
    }
    assert Users(threads', id) == Users(threads, id) + {t};
  }

  lemma NoUsersYet(s: Pool, id: nat)
    requires Inv(s) && id >= |s.sh.conns|
    ensures Users(s.threads, id) == {}
  {
    forall u | u in s.threads ensures !s.threads[u].CountsFor(id) {
      assert ThreadOk(s, u);
    }
  }

  lemma CountedAfterEntry(s: Pool, t: nat, id: nat)
    requires Inv(s) && Enabled(s, CountIn(t)) && id < |s.sh.conns|
    ensures Next(s, CountIn(t)).sh.conns[id].refCount == |Users(Next(s, CountIn(t)).threads, id)|
  {
    hide Located, Clocked, CollectorOk, ThreadOk, Users;
    var threads' := Next(s, CountIn(t)).threads;
    assert s.sh.conns[id].refCount == |Users(s.threads, id)|;
    if s.threads[t].id == id {
      assert s.threads - {t} == threads' - {t};
      UsersMore(s.threads, threads', t, id);
    } else {
      UsersSame(s.threads, threads', id);
    }
  }

  lemma CountedAfterExit(s: Pool, step: Step, id: nat)
    requires Inv(s) && Enabled(s, step) && (step.CountOut? || step.Close?) && id < |s.sh.conns|
    ensures Next(s, step).sh.conns[id].refCount == |Users(Next(s, step).threads, id)|
  {
    hide Located, Clocked, CollectorOk, ThreadOk, Users;
    var threads' := Next(s, step).threads;
    assert s.sh.conns[id].refCount == |Users(s.threads, id)|;
    if s.threads[step.t].id == id {
      UsersMore(threads', s.threads, step.t, id);
    } else {
      UsersSame(s.threads, threads', id);
    }
  }

  lemma CountedAfterGet(s: Pool, t: nat, check: nat, id: nat)
    requires Inv(s) && Enabled(s, Get(t, check)) && id < |Next(s, Get(t, check)).sh.conns|
    ensures Next(s, Get(t, check)).sh.conns[id].refCount == |Users(Next(s, Get(t, check)).threads, id)|
  {
    hide Located, Clocked, CollectorOk, ThreadOk, Users;
    if id < |s.sh.conns| {
      assert s.sh.conns[id].refCount == |Users(s.threads, id)|;
    } else {
      NoUsersYet(s, id);
    }
    UsersSame(s.threads, Next(s, Get(t, check)).threads, id);
  }

  /** No other step changes a reference count, or whether a goroutine counts. */
  lemma CountUnchanged(s: Pool, step: Step, id: nat)
    requires s.sh.WellFormed() && Enabled(s, step) && id < |s.sh.conns|
    requires !step.CountIn? && !step.CountOut? && !step.Close? && !step.Get?
    ensures |Next(s, step).sh.conns| == |s.sh.conns| && Next(s, step).sh.conns[id].refCount == s.sh.conns[id].refCount
    ensures Users(Next(s, step).threads, id) == Users(s.threads, id)
  {
    hide Users, Timely, ShouldCheck, Idle;
    UsersSame(s.threads, Next(s, step).threads, id);
  }

  lemma CountedStep(s: Pool, step: Step, id: nat)
    requires Inv(s) && Enabled(s, step) && id < |Next(s, step).sh.conns|
    ensures Next(s, step).sh.conns[id].refCount == |Users(Next(s, step).threads, id)|
  {
    match step
    case CountIn(t) => CountedAfterEntry(s, t, id);
    case CountOut(t) => CountedAfterExit(s, step, id);
    case Close(t) => CountedAfterExit(s, step, id);
    case Get(t, check) => CountedAfterGet(s, t, check, id);
    case _ =>
      hide Next, Located, Clocked, CollectorOk, ThreadOk, Users;
      CountUnchanged(s, step, id);
  }

  lemma NotYetDead(s: Pool, id: nat)
    requires Inv(s) && id >= |s.sh.conns|
    ensures id !in DeadList(s) && multiset(DeadList(s))[id] == 0
  {
    hide Counted, Located, ThreadOk, Clocked;
  }

  lemma ReapTakesFirst(stillUsed: seq<nat>, left: seq<nat>)
    requires left != []
    ensures stillUsed + [left[0]] + left[1..] == stillUsed + left
    ensures multiset(stillUsed + left[1..]) == multiset(stillUsed + left) - multiset{left[0]}
    ensures left[0] in stillUsed + left
  {
    assert left == [left[0]] + left[1..];
    assert stillUsed + left == stillUsed + [left[0]] + left[1..];
  }

  lemma ReapEffect(s: Pool, id: nat)
    requires s.sh.WellFormed() && Enabled(s, GcReap) && id < |s.sh.conns|
    ensures var s', first := Next(s, GcReap), s.gc.left[0];
            && |s'.sh.conns| == |s.sh.conns| && s'.sh.active == s.sh.active
            && first in DeadList(s)
            && s'.sh.conns[id].(closes := s.sh.conns[id].closes) == s.sh.conns[id]
            && if s.sh.conns[first].refCount <= 0
               then multiset(DeadList(s')) == multiset(DeadList(s)) - multiset{first}
                    && s'.sh.conns[id].closes == s.sh.conns[id].closes + (if id == first then 1 else 0)
               else DeadList(s') == DeadList(s) && s'.sh == s.sh
  {
    ReapTakesFirst(s.gc.stillUsed, s.gc.left);
  }

  lemma LocatedAfterReap(s: Pool, id: nat)
    requires Inv(s) && Enabled(s, GcReap) && id < |s.sh.conns|
    ensures id < |Next(s, GcReap).sh.conns| && Located(Next(s, GcReap), id)
  {
    hide Next, DeadList, Counted, Clocked, ThreadOk, CollectorOk;
    ReapEffect(s, id);
    assert Located(s, id);
    assert multiset(DeadList(s))[id] > 0 <==> id in DeadList(s);
    assert multiset(DeadList(Next(s, GcReap)))[id] > 0 <==> id in DeadList(Next(s, GcReap));
  }

  lemma LocatedAfterGet(s: Pool, t: nat, check: nat, id: nat)
    requires Inv(s) && Enabled(s, Get(t, check)) && id < |Next(s, Get(t, check)).sh.conns|
    ensures Located(Next(s, Get(t, check)), id)
  {
    hide Counted, Clocked, CollectorOk;
    var s' := Next(s, Get(t, check));
    assert ThreadOk(s, t);
    NotYetDead(s, |s.sh.conns|);
    assert DeadList(s') == DeadList(s);
    if id < |s.sh.conns| {
      assert Located(s, id);
      assert s'.sh.conns[id] == s.sh.conns[id];
    }
  }

  lemma LocatedAfterBury(s: Pool, t: nat, id: nat)
    requires Inv(s) && Enabled(s, Bury(t)) && id < |s.sh.conns|
    ensures Located(Next(s, Bury(t)), id)
  {
    hide Counted, Clocked, CollectorOk;
    assert ThreadOk(s, t);
    var buried: nat := s.threads[t].id;
    assert buried < |s.sh.conns| && s.sh.conns[buried].params == s.threads[t].params;
    hide ThreadOk;
    assert Located(s, id) && Located(s, buried);
    assert multiset(s.sh.dead + [buried]) == multiset(s.sh.dead) + multiset{buried};
  }

  lemma LocatedAfterSweep(s: Pool, params: string, id: nat)
    requires Inv(s) && Enabled(s, GcSweep(params)) && id < |s.sh.conns|
    ensures Located(Next(s, GcSweep(params)), id)
  {
    hide Counted, ThreadOk, CollectorOk;
    var s' := Next(s, GcSweep(params));
    assert DeadList(s') == DeadList(s);
    assert Located(s, id) && Located(s, s.sh.active[params]);
    assert Timely(s, s.now);
  }

  lemma PlaceUnchanged(s: Pool, step: Step, id: nat)
    requires s.sh.WellFormed() && Enabled(s, step) && id < |s.sh.conns|
    requires !step.Get? && !step.Bury? && !step.GcReap? && !step.GcSweep?
    ensures |Next(s, step).sh.conns| == |s.sh.conns|
    ensures DeadList(Next(s, step)) == DeadList(s) && Next(s, step).sh.active == s.sh.active
    ensures Next(s, step).sh.conns[id].closes == s.sh.conns[id].closes
    ensures Next(s, step).sh.conns[id].params == s.sh.conns[id].params
    ensures Next(s, step).sh.conns[id].phase == s.sh.conns[id].phase || s.sh.conns[id].phase.Connecting?
  {
    hide Timely, ShouldCheck;
  }

  lemma LocatedOtherwise(s: Pool, step: Step, id: nat)
    requires Inv(s) && Enabled(s, step) && id < |s.sh.conns|
    requires !step.Get? && !step.Bury? && !step.GcReap? && !step.GcSweep?
    ensures id < |Next(s, step).sh.conns| && Located(Next(s, step), id)
  {
    hide Next, Counted, Clocked, ThreadOk, CollectorOk, DeadList;
    PlaceUnchanged(s, step, id);
    assert Located(s, id);
    assert multiset(DeadList(s))[id] > 0 <==> id in DeadList(s);
  }

  lemma LocatedStep(s: Pool, step: Step, id: nat)
    requires Inv(s) && Enabled(s, step) && id < |Next(s, step).sh.conns|
    ensures Located(Next(s, step), id)
  {
    hide Counted, Clocked, ThreadOk, CollectorOk, Located;
    if step.Get? {
      LocatedAfterGet(s, step.t, step.check, id);
      return;
    }
    match step
    case Bury(t) => LocatedAfterBury(s, t, id);
    case GcReap => LocatedAfterReap(s, id);
    case GcSweep(params) => LocatedAfterSweep(s, params, id);
    case _ => LocatedOtherwise(s, step, id);
  }

  /** Whoever holds a connection keeps it from being collected. */
  lemma UserIsCounted(s: Pool, t: nat)
    requires Inv(s) && t in s.threads && s.threads[t].Holding?
    ensures s.sh.conns[s.threads[t].id].refCount > 0
  {
    assert ThreadOk(s, t);
    assert t in Users(s.threads, s.threads[t].id);
  }

  lemma ActiveIsOpen(s: Pool, params: string)
    requires Inv(s) && params in s.sh.active
    ensures s.sh.conns[s.sh.active[params]].closes == 0
  {
    assert Located(s, s.sh.active[params]);
  }

  /** A goroutine that does not move stays sound, whatever the others and the collector do. */
  lemma BystanderStep(s: Pool, step: Step, t: nat)
    requires Inv(s) && Enabled(s, step) && t in s.threads
    requires t in Next(s, step).threads && Next(s, step).threads[t] == s.threads[t]
    ensures ThreadOk(Next(s, step), t)
  {
    hide Counted, Clocked, CollectorOk, Located, Timely, ShouldCheck;
    assert ThreadOk(s, t);
    if s.threads[t].Holding? {
      UserIsCounted(s, t);
    }
  }

  lemma MoverStep(s: Pool, step: Step, t: nat)
    requires Inv(s) && Enabled(s, step) && t in Next(s, step).threads
    requires t in s.threads ==> Next(s, step).threads[t] != s.threads[t]
    ensures ThreadOk(Next(s, step), t)
  {
    hide Counted, Clocked, CollectorOk, Located, Timely;
    if t in s.threads {
      assert ThreadOk(s, t);
    }
    if step.Get? || step.LookUp? {
      assert ThreadOk(s, step.t);
      var params := s.threads[step.t].params;
      if params in s.sh.active {
        ActiveIsOpen(s, params);
      }
    }
  }

  lemma ThreadsStep(s: Pool, step: Step, t: nat)
    requires Inv(s) && Enabled(s, step) && t in Next(s, step).threads
    ensures ThreadOk(Next(s, step), t)
  {
    hide ThreadOk;
    if t in s.threads && Next(s, step).threads[t] == s.threads[t] {
      BystanderStep(s, step, t);
    } else {
      MoverStep(s, step, t);
    }
  }

  lemma GotShape(sh: Shared, params: string, now: int)
    requires sh.WellFormed()
    ensures Got(sh, params, now).0.WellFormed()
  {
  }

  lemma SweptShape(sh: Shared, params: string, now: int)
    requires sh.WellFormed() && params in sh.active
    ensures Swept(sh, params, now).WellFormed()
  {
  }

  lemma ShapeStep(s: Pool, step: Step)
    requires Inv(s) && Enabled(s, step)
    ensures Next(s, step).sh.WellFormed()
  {
    hide Counted, Located, Clocked, Timely, ShouldCheck, Idle;
    match step
    case Get(t, _) =>
      GotShape(s.sh, s.threads[t].params, s.now);
    case Bury(t) =>
      assert ThreadOk(s, t);
    case GcSweep(params) =>
      SweptShape(s.sh, params, s.now);
    case _ =>
  }

  lemma CollectorStep(s: Pool, step: Step)
    requires Inv(s) && Enabled(s, step)
    ensures CollectorOk(Next(s, step))
  {
    hide Counted, Located, Clocked, Timely, ShouldCheck, Idle;
    match step
    case Get(t, _) =>
      assert ThreadOk(s, t);
    case Bury(t) =>
      assert ThreadOk(s, t);
    case GcSweep(params) =>
    case GcReap =>
    case GcEnd =>
    case _ =>
  }

  lemma ClockStep(s: Pool, step: Step)
    requires Inv(s) && Enabled(s, step)
    ensures Clocked(Next(s, step))
  {
    hide Counted, Located, ThreadOk, CollectorOk, ShouldCheck, Idle;
    var s' := Next(s, step);
    if |s'.sh.conns| == |s.sh.conns| {
      assert forall id | 0 <= id < |s.sh.conns| ::
          s'.sh.conns[id].created == s.sh.conns[id].created && s.sh.conns[id].lastOpened <= s'.sh.conns[id].lastOpened
          && s'.sh.conns[id].lastOpened <= s'.now;
    }
  }

  lemma StepKeepsInv(s: Pool, step: Step)
    requires Inv(s) && Enabled(s, step)
    ensures Inv(Next(s, step))
  {
    var s' := Next(s, step);
    ShapeStep(s, step);
    CollectorStep(s, step);
    ClockStep(s, step);
    forall id | 0 <= id < |s'.sh.conns| ensures Located(s', id) && s'.sh.conns[id].refCount == |Users(s'.threads, id)| {
      LocatedStep(s, step, id);
      CountedStep(s, step, id);
    }
    forall t | t in s'.threads ensures ThreadOk(s', t) {
      ThreadsStep(s, step, t);
    }
    hide Next, Located, ThreadOk, Clocked, CollectorOk;
  }

  // ------------------------------------------------------------ whole runs

  ghost predicate Run(states: seq<Pool>, steps: seq<Step>)
  {
    && |states| == |steps| + 1
    && states[0].sh == Shared([], map[], []) && states[0].threads == map[] && states[0].gc == Off
    && forall i | 0 <= i < |steps| ::
         states[i].sh.WellFormed() && Enabled(states[i], steps[i]) && states[i + 1] == Next(states[i], steps[i])
  }

  lemma {:induction false} RunKeepsInv(states: seq<Pool>, steps: seq<Step>, i: nat)
    requires Run(states, steps) && i < |states|
    ensures Inv(states[i])
  {
    if i > 0 {
      RunKeepsInv(states, steps, i - 1);
      hide Inv, Next, Enabled;
      StepKeepsInv(states[i - 1], steps[i - 1]);
    }
  }

  /** In every interleaving, the reference count of a connection is the number of its pending opens and
      unreturned successful opens. */
  lemma RefCountIsExact(states: seq<Pool>, steps: seq<Step>, i: nat, id: nat)
    requires Run(states, steps) && i < |states| && id < |states[i].sh.conns|
    ensures states[i].sh.conns[id].refCount == |Users(states[i].threads, id)|
  {
    RunKeepsInv(states, steps, i);
  }

  /** A server is not closed as long as an open is pending, the connection is held, or it is being checked. */
  lemma NeverClosedInUse(states: seq<Pool>, steps: seq<Step>, i: nat, t: nat, id: nat)
    requires Run(states, steps) && i < |states|
    requires t in states[i].threads && states[i].threads[t].Uses(id)
    ensures id < |states[i].sh.conns| && states[i].sh.conns[id].closes == 0
    ensures states[i].threads[t].Holding? ==> states[i].sh.conns[id].phase.Up?
  {
    RunKeepsInv(states, steps, i);
    assert ThreadOk(states[i], t);
  }

  /** A connection that came up is in the map under its own parameters, or once on the dead list, or closed
      once: never in two of these places, and never in none. No connection is ever closed twice. */
  lemma ExactlyOnePlace(states: seq<Pool>, steps: seq<Step>, i: nat, id: nat)
    requires Run(states, steps) && i < |states| && id < |states[i].sh.conns|
    ensures states[i].sh.conns[id].phase.Up? ==> Places(states[i], id) == 1
    ensures states[i].sh.conns[id].closes <= 1
  {
    RunKeepsInv(states, steps, i);
    assert Located(states[i], id);
  }

  /** Only the collector closes servers: of idle active connections and of unused dead ones. */
  lemma OnlyCollectorCloses(s: Pool, step: Step, id: nat)
    requires s.sh.WellFormed() && Enabled(s, step) && id < |s.sh.conns|
    ensures id < |Next(s, step).sh.conns|
    ensures Next(s, step).sh.conns[id].closes > s.sh.conns[id].closes ==>
              && !s.gc.Off?
              && s.sh.conns[id].refCount <= 0
              && ((IsActive(s.sh, id) && !s.sh.conns[id].phase.Failed? && Idle(s.sh.conns[id], s.now))
                  || (s.gc.Reaping? && s.gc.left != [] && s.gc.left[0] == id))
  {
    hide Timely, ShouldCheck;
  }

  lemma ClosedWasUp(s: Pool, step: Step, id: nat)
    requires Inv(s) && Enabled(s, step) && id < |s.sh.conns| && id < |Next(s, step).sh.conns|
    requires Next(s, step).sh.conns[id].closes > s.sh.conns[id].closes
    ensures s.sh.conns[id].phase.Up?
  {
    OnlyCollectorCloses(s, step, id);
    hide Next, Enabled, Counted, CollectorOk, ThreadOk;
    assert Located(s, id) && Timely(s, s.now);
    hide Clocked;
    if s.gc.Reaping? && s.gc.left != [] {
      ReapTakesFirst(s.gc.stillUsed, s.gc.left);
    }
    assert multiset(DeadList(s))[id] > 0 <==> id in DeadList(s);
  }

  lemma ClosedIsUnused(s: Pool, step: Step, id: nat, t: nat)
    requires Inv(s) && Enabled(s, step) && id < |s.sh.conns| && id < |Next(s, step).sh.conns|
    requires Next(s, step).sh.conns[id].closes > s.sh.conns[id].closes
    requires t in s.threads
    ensures !s.threads[t].Uses(id)
  {
    OnlyCollectorCloses(s, step, id);
    hide Next, Enabled, Counted, CollectorOk, Located, Clocked;
    assert ThreadOk(s, t);
    if s.threads[t].Holding? {
      UserIsCounted(s, t);
    }
  }

  /** When the collector calls `Server.Close`, the attempt has succeeded (so there is a server), and nobody has
      a reference to the connection or is checking it. */
  lemma CloseIsSafe(states: seq<Pool>, steps: seq<Step>, i: nat, id: nat, t: nat)
    requires Run(states, steps) && i < |steps| && id < |states[i].sh.conns| && id < |states[i + 1].sh.conns|
    requires states[i + 1].sh.conns[id].closes > states[i].sh.conns[id].closes
    ensures states[i].sh.conns[id].phase.Up?
    ensures t in states[i].threads ==> !states[i].threads[t].Uses(id)
  {
    RunKeepsInv(states, steps, i);
    hide Next, Enabled, Inv;
    ClosedWasUp(states[i], steps[i], id);
    if t in states[i].threads {
      ClosedIsUnused(states[i], steps[i], id, t);
    }
  }

  lemma OnceGone(s: Pool, step: Step, id: nat)
    requires Inv(s) && Enabled(s, step) && id < |s.sh.conns| && !IsActive(s.sh, id)
    ensures id < |Next(s, step).sh.conns| && !IsActive(Next(s, step).sh, id)
  {
    hide Counted, Clocked, Located, ThreadOk, CollectorOk;
  }

  /** A connection that left the map, replaced, buried or collected, never comes back into it. */
  lemma {:induction false} NeverResurrected(states: seq<Pool>, steps: seq<Step>, i: nat, j: nat, id: nat)
    requires Run(states, steps) && i <= j < |states|
    requires id < |states[i].sh.conns| && !IsActive(states[i].sh, id)
    ensures id < |states[j].sh.conns| && !IsActive(states[j].sh, id)
  {
    hide Inv, Next, Enabled, IsActive;
    if i < j {
      NeverResurrected(states, steps, i, j - 1, id);
      RunKeepsInv(states, steps, j - 1);
      OnceGone(states[j - 1], steps[j - 1], id);
    }
  }

  lemma ClocksGrow(s: Pool, step: Step, id: nat)
    requires Inv(s) && Enabled(s, step) && id < |s.sh.conns|
    ensures var conns, conns' := s.sh.conns, Next(s, step).sh.conns;
            && id < |conns'| && s.now <= Next(s, step).now
            && conns[id].lastOpened <= conns'[id].lastOpened && conns[id].lastChecked <= conns'[id].lastChecked
  {
    hide Counted, Located, ThreadOk, CollectorOk, Timely, Idle;
  }

  lemma {:induction false} ClocksGrowAlong(states: seq<Pool>, steps: seq<Step>, i: nat, j: nat, id: nat)
    requires Run(states, steps) && i <= j < |states| && id < |states[i].sh.conns|
    ensures var conns, conns' := states[i].sh.conns, states[j].sh.conns;
            && id < |conns'| && states[i].now <= states[j].now
            && conns[id].lastOpened <= conns'[id].lastOpened && conns[id].lastChecked <= conns'[id].lastChecked
  {
    hide Inv, Next, Enabled;
    if i < j {
      ClocksGrowAlong(states, steps, i, j - 1, id);
      RunKeepsInv(states, steps, j - 1);
      ClocksGrow(states[j - 1], steps[j - 1], id);
    }
  }

  lemma OpenIsNoted(s: Pool, t: nat)
    requires s.sh.WellFormed() && Enabled(s, CountIn(t))
    ensures Next(s, CountIn(t)).sh.conns[s.threads[t].id].lastOpened == s.now
  {
  }

  /** A connection that the collector closes as idle has not been opened for more than a minute. */
  lemma IdleLongEnough(states: seq<Pool>, steps: seq<Step>, i: nat, j: nat, t: nat, id: nat)
    requires Run(states, steps) && i < j < |steps|
    requires steps[i] == CountIn(t) && t in states[i].threads && states[i].threads[t] == Fetched(id)
    requires steps[j].GcSweep? && id < |states[j].sh.conns| && id < |states[j + 1].sh.conns|
    requires states[j + 1].sh.conns[id].closes > states[j].sh.conns[id].closes
    ensures states[j].now - states[i].now > 60
  {
    RunKeepsInv(states, steps, i);
    OpenIsNoted(states[i], t);
    OnlyCollectorCloses(states[j], steps[j], id);
    hide Inv, Next, IsActive;
    assert id < |states[i + 1].sh.conns|;
    ClocksGrowAlong(states, steps, i + 1, j, id);
  }

  lemma ProbeIsNoted(s: Pool, t: nat, params: string, id: nat)
    requires s.sh.WellFormed() && Enabled(s, DecideCheck(t)) && Next(s, DecideCheck(t)).threads.Keys == s.threads.Keys
    requires s.threads[t] == Found(params, id)
    ensures s.now - s.sh.conns[id].lastChecked >= 10
    ensures Next(s, DecideCheck(t)).sh.conns[id].lastChecked == s.now
  {
  }

  /** Two probes of one connection lie at least ten seconds apart, however many checks are started. (A check that goes
      on to probe is not removed from the threads.) */
  lemma ProbesAreSpaced(states: seq<Pool>, steps: seq<Step>, i: nat, j: nat, t: nat, u: nat, p: string, q: string,
                        id: nat)
    requires Run(states, steps) && i < j < |steps| && steps[i] == DecideCheck(t) && steps[j] == DecideCheck(u)
    requires t in states[i].threads && states[i].threads[t] == Found(p, id) && t in states[i + 1].threads
    requires u in states[j].threads && states[j].threads[u] == Found(q, id) && u in states[j + 1].threads
    ensures states[j].now - states[i].now >= 10
  {
    ProbeIsNoted(states[i], t, p, id);
    ProbeIsNoted(states[j], u, q, id);
    ClocksGrowAlong(states, steps, i + 1, j, id);
  }

  // ------------------------------------------------------------ single threads, uninterrupted

  ghost predicate Leads(s: Pool, steps: seq<Step>, s': Pool)
    decreases |steps|
  {
    if steps == [] then s == s'
    else s.sh.WellFormed() && Enabled(s, steps[0]) && Leads(Next(s, steps[0]), steps[1..], s')
  }

  ghost predicate Takes(s: Pool, step: Step, s': Pool)
  {
    s.sh.WellFormed() && Enabled(s, step) && Next(s, step) == s'
  }

  lemma LeadsOn(s: Pool, step: Step, mid: Pool, steps: seq<Step>, s': Pool)
    requires Takes(s, step, mid) && Leads(mid, steps, s')
    ensures Leads(s, [step] + steps, s')
  {
    hide Next, Enabled;
    assert ([step] + steps)[1..] == steps;
  }

  lemma LeadsOnce(s: Pool, step: Step, s': Pool)
    requires Takes(s, step, s')
    ensures Leads(s, [step], s')
  {
    hide Next, Enabled;
  }

  /** An open gets a connection, starting a check if it is up, and counts itself in. Whether it succeeds and is closed
      later, or fails, nothing is left of it but the time of the open, and the check. */
  lemma OpenRuns(s: Pool, t: nat, check: nat, params: string)
    returns (sh': Shared, id: nat, spawned: bool, waiting: Pool, after: Pool)
    requires s.sh.WellFormed() && s.gc.Off? && t !in s.threads && check !in s.threads && t != check
    ensures IsGot(s.sh, params, s.now, sh', id, spawned)
    ensures var c, rest := sh'.conns[id], if spawned then s.threads[check := Spawned(params)] else s.threads;
            && Leads(s, [StartOpen(t, params), Get(t, check), CountIn(t)], waiting)
            && waiting == s.(sh := sh'.With(id, c.(refCount := c.refCount + 1, lastOpened := s.now)),
                             threads := rest[t := Waiting(id)])
            && after == s.(sh := sh'.With(id, c.(lastOpened := s.now)), threads := rest)
            && Leads(waiting, [OpenFails(t), CountOut(t)], after)
            && (c.phase.Up? ==> Leads(waiting, [OpenSucceeds(t), Close(t)], after))
  {
    hide Next, Enabled, Takes, Leads, IsGot;
    var opening := s.(threads := s.threads[t := Opening(params)]);
    var fetched;
    sh', id, spawned, fetched := GetRuns(s, opening, t, check, params);
    waiting, after := CountInRuns(fetched, t, id);
    LeadsOn(opening, Get(t, check), fetched, [CountIn(t)], waiting);
    assert [Get(t, check)] + [CountIn(t)] == [Get(t, check), CountIn(t)];
    assert [StartOpen(t, params)] + [Get(t, check), CountIn(t)] == [StartOpen(t, params), Get(t, check), CountIn(t)];
    LeadsOn(s, StartOpen(t, params), opening, [Get(t, check), CountIn(t)], waiting);
    var rest := if spawned then s.threads[check := Spawned(params)] else s.threads;
    assert rest[t := Fetched(id)] - {t} == rest;
    OpenEnds(waiting, after, t, id);
  }

  lemma GetRuns(s: Pool, opening: Pool, t: nat, check: nat, params: string)
    returns (sh': Shared, id: nat, spawned: bool, fetched: Pool)
    requires s.sh.WellFormed() && s.gc.Off? && t !in s.threads && check !in s.threads && t != check
    requires opening == s.(threads := s.threads[t := Opening(params)])
    ensures IsGot(s.sh, params, s.now, sh', id, spawned) && sh'.WellFormed() && id < |sh'.conns|
    ensures var rest := if spawned then s.threads[check := Spawned(params)] else s.threads;
            fetched == s.(sh := sh', threads := rest[t := Fetched(id)])
    ensures Takes(s, StartOpen(t, params), opening) && Takes(opening, Get(t, check), fetched)
  {
    GotMeans(s.sh, params, s.now);
    var got := Got(s.sh, params, s.now);
    sh', id, spawned := got.0, got.1, got.2;
    assert sh'.WellFormed() && id < |sh'.conns|;
    hide Got, IsGot;
    fetched := Next(opening, Get(t, check));
  }

  lemma CountInRuns(s: Pool, t: nat, id: nat) returns (waiting: Pool, after: Pool)
    requires s.sh.WellFormed() && id < |s.sh.conns| && t in s.threads && s.threads[t] == Fetched(id)
    ensures var c := s.sh.conns[id];
            && waiting == s.(sh := s.sh.With(id, c.(refCount := c.refCount + 1, lastOpened := s.now)),
                             threads := s.threads[t := Waiting(id)])
            && after == s.(sh := s.sh.With(id, c.(lastOpened := s.now)), threads := s.threads - {t})
    ensures Leads(s, [CountIn(t)], waiting) && waiting.sh.WellFormed()
    ensures after.threads == waiting.threads - {t}
    ensures after.sh == waiting.sh.With(id, waiting.sh.conns[id].(refCount := waiting.sh.conns[id].refCount - 1))
  {
    var c := s.sh.conns[id];
    waiting := s.(sh := s.sh.With(id, c.(refCount := c.refCount + 1, lastOpened := s.now)),
                  threads := s.threads[t := Waiting(id)]);
    after := s.(sh := s.sh.With(id, c.(lastOpened := s.now)), threads := s.threads - {t});
    assert Takes(s, CountIn(t), waiting);
    LeadsOnce(s, CountIn(t), waiting);
  }

  lemma OpenEnds(waiting: Pool, after: Pool, t: nat, id: nat)
    requires waiting.sh.WellFormed() && id < |waiting.sh.conns|
    requires t in waiting.threads && waiting.threads[t] == Waiting(id)
    requires var c := waiting.sh.conns[id];
             after == waiting.(sh := waiting.sh.With(id, c.(refCount := c.refCount - 1)),
                               threads := waiting.threads - {t})
    ensures Leads(waiting, [OpenFails(t), CountOut(t)], after)
    ensures waiting.sh.conns[id].phase.Up? ==> Leads(waiting, [OpenSucceeds(t), Close(t)], after)
  {
    var failing := waiting.(threads := waiting.threads[t := Failing(id)]);
    var holding := waiting.(threads := waiting.threads[t := Holding(id)]);
    assert failing.threads - {t} == after.threads == holding.threads - {t};
    assert Takes(waiting, OpenFails(t), failing) && Takes(failing, CountOut(t), after);
    assert Takes(holding, Close(t), after);
    assert waiting.sh.conns[id].phase.Up? ==> Takes(waiting, OpenSucceeds(t), holding);
    hide Next, Enabled, Takes, Leads;
    LeadsOnce(failing, CountOut(t), after);
    LeadsOn(waiting, OpenFails(t), failing, [CountOut(t)], after);
    if waiting.sh.conns[id].phase.Up? {
      LeadsOnce(holding, Close(t), after);
      LeadsOn(waiting, OpenSucceeds(t), holding, [Close(t)], after);
    }
  }

  /** A check does nothing if the connection is gone, not up, or was checked lately; otherwise it notes the time and
      probes; if the probe fails, the connection moves from the map to the dead list. */
  lemma CheckRuns(s: Pool, t: nat, ok: bool)
    requires s.sh.WellFormed() && t in s.threads && s.threads[t].Spawned? && s.gc.Off?
    ensures var p, conns, rest := s.threads[t].params, s.sh.conns, s.threads - {t};
            if p !in s.sh.active || !conns[s.sh.active[p]].phase.Up? then
              Leads(s, [StartCheck(t), LookUp(t)], s.(threads := rest))
            else
              var id := s.sh.active[p];
              if s.now - conns[id].lastChecked < 10 then
                Leads(s, [StartCheck(t), LookUp(t), DecideCheck(t)], s.(threads := rest))
              else
                var noted := conns[id := conns[id].(lastChecked := s.now)];
                if ok then
                  Leads(s, [StartCheck(t), LookUp(t), DecideCheck(t), ProbeEnds(t, true)],
                        s.(sh := s.sh.(conns := noted), threads := rest))
                else
                  Leads(s, [StartCheck(t), LookUp(t), DecideCheck(t), ProbeEnds(t, false), Bury(t)],
                        s.(sh := Shared(noted, s.sh.active - {p}, s.sh.dead + [id]), threads := rest))
  {
    var p, conns, rest := s.threads[t].params, s.sh.conns, s.threads - {t};
    var checking, done := s.(threads := s.threads[t := Checking(p)]), s.(threads := rest);
    assert checking.threads - {t} == rest;
    assert Takes(s, StartCheck(t), checking);
    if p !in s.sh.active || !conns[s.sh.active[p]].phase.Up? {
      assert Takes(checking, LookUp(t), done);
      hide Next, Enabled, Takes, Leads;
      LeadsOnce(checking, LookUp(t), done);
      LeadsOn(s, StartCheck(t), checking, [LookUp(t)], done);
    } else {
      var found := s.(threads := s.threads[t := Found(p, s.sh.active[p])]);
      assert found.threads - {t} == rest && checking.threads[t := Found(p, s.sh.active[p])] == found.threads;
      assert Takes(checking, LookUp(t), found);
      hide Next, Enabled, Takes, Leads;
      var steps, s' := DecisionRuns(found, t, ok);
      LeadsOn(checking, LookUp(t), found, steps, s');
      LeadsOn(s, StartCheck(t), checking, [LookUp(t)] + steps, s');
      assert [StartCheck(t)] + ([LookUp(t)] + steps) == [StartCheck(t), LookUp(t)] + steps;
    }
  }

  lemma DecisionRuns(s: Pool, t: nat, ok: bool) returns (steps: seq<Step>, s': Pool)
    requires s.sh.WellFormed() && t in s.threads && s.threads[t].Found?
    requires s.threads[t].params in s.sh.active && s.sh.active[s.threads[t].params] == s.threads[t].id
    ensures Leads(s, steps, s')
    ensures var p, id, rest := s.threads[t].params, s.threads[t].id, s.threads - {t};
            if s.now - s.sh.conns[id].lastChecked < 10 then
              steps == [DecideCheck(t)] && s' == s.(threads := rest)
            else
              var noted := s.sh.conns[id := s.sh.conns[id].(lastChecked := s.now)];
              if ok then
                steps == [DecideCheck(t), ProbeEnds(t, true)]
                && s' == s.(sh := s.sh.(conns := noted), threads := rest)
              else
                steps == [DecideCheck(t), ProbeEnds(t, false), Bury(t)]
                && s' == s.(sh := Shared(noted, s.sh.active - {p}, s.sh.dead + [id]), threads := rest)
  {
    var p, id, rest := s.threads[t].params, s.threads[t].id, s.threads - {t};
    if s.now - s.sh.conns[id].lastChecked < 10 {
      steps, s' := [DecideCheck(t)], s.(threads := rest);
      assert Takes(s, DecideCheck(t), s');
      LeadsOnce(s, DecideCheck(t), s');
    } else {
      var noted := s.sh.(conns := s.sh.conns[id := s.sh.conns[id].(lastChecked := s.now)]);
      var probing := s.(sh := noted, threads := s.threads[t := Probing(p, id)]);
      assert probing.threads - {t} == rest;
      assert Takes(s, DecideCheck(t), probing);
      hide Leads;
      var ends;
      ends, s' := ProbeRuns(probing, t, ok);
      steps := [DecideCheck(t)] + ends;
      hide Next, Enabled, Takes;
      LeadsOn(s, DecideCheck(t), probing, ends, s');
    }
  }

  lemma ProbeRuns(s: Pool, t: nat, ok: bool) returns (steps: seq<Step>, s': Pool)
    requires s.sh.WellFormed() && t in s.threads && s.threads[t].Probing?
    requires s.threads[t].params in s.sh.active && s.sh.active[s.threads[t].params] == s.threads[t].id
    ensures Leads(s, steps, s')
    ensures var p, id, rest := s.threads[t].params, s.threads[t].id, s.threads - {t};
            if ok then steps == [ProbeEnds(t, true)] && s' == s.(threads := rest)
            else
              && steps == [ProbeEnds(t, false), Bury(t)]
              && s' == s.(sh := Shared(s.sh.conns, s.sh.active - {p}, s.sh.dead + [id]), threads := rest)
  {
    var p, id, rest := s.threads[t].params, s.threads[t].id, s.threads - {t};
    if ok {
      steps, s' := [ProbeEnds(t, true)], s.(threads := rest);
      assert Takes(s, ProbeEnds(t, true), s');
      LeadsOnce(s, ProbeEnds(t, true), s');
    } else {
      var burying := s.(threads := s.threads[t := Burying(p, id)]);
      steps := [ProbeEnds(t, false), Bury(t)];
      s' := s.(sh := Shared(s.sh.conns, s.sh.active - {p}, s.sh.dead + [id]), threads := rest);
      assert burying.threads - {t} == rest;
      assert Takes(s, ProbeEnds(t, false), burying) && Takes(burying, Bury(t), s');
      hide Next, Enabled, Takes, Leads;
      LeadsOnce(burying, Bury(t), s');
      LeadsOn(s, ProbeEnds(t, false), burying, [Bury(t)], s');
    }
  }

  // ------------------------------------------------------------ the critical sections as code

  /** What one uninterrupted sweep does: failed attempts are forgotten, idle connections closed and forgotten. */
  ghost predicate SweepDone(sh: Shared, sh': Shared, now: int)
    requires sh.WellFormed()
  {
    && |sh'.conns| == |sh.conns|
    && sh'.dead == sh.dead
    && (forall p :: p in sh'.active <==>
          p in sh.active && !sh.conns[sh.active[p]].phase.Failed? && !Idle(sh.conns[sh.active[p]], now))
    && (forall p | p in sh'.active :: sh'.active[p] == sh.active[p])
    && forall id | 0 <= id < |sh.conns| ::
         sh'.conns[id] == if IsActive(sh, id) && !sh.conns[id].phase.Failed? && Idle(sh.conns[id], now)
                          then sh.conns[id].(closes := sh.conns[id].closes + 1) else sh.conns[id]
  }

  /** What a sweep has done when the parameters in `todo` are still to be looked at. */
  ghost predicate PartlySwept(sh: Shared, sh': Shared, todo: set<string>, now: int)
    requires sh.WellFormed()
  {
    && |sh'.conns| == |sh.conns|
    && sh'.dead == sh.dead
    && todo <= sh'.active.Keys <= sh.active.Keys
    && (forall p | p in sh'.active :: sh'.active[p] == sh.active[p])
    && (forall p | p in sh.active && p !in todo :: p in sh'.active <==>
          !sh.conns[sh.active[p]].phase.Failed? && !Idle(sh.conns[sh.active[p]], now))
    && forall id | 0 <= id < |sh.conns| ::
         sh'.conns[id] == if IsActive(sh, id) && sh.conns[id].params !in todo
                             && !sh.conns[id].phase.Failed? && Idle(sh.conns[id], now)
                          then sh.conns[id].(closes := sh.conns[id].closes + 1) else sh.conns[id]
  }

  lemma SweepOne(sh: Shared, sh': Shared, todo: set<string>, now: int, params: string)
    requires sh.WellFormed() && sh'.WellFormed() && params in todo
    requires PartlySwept(sh, sh', todo, now)
    ensures params in sh'.active
    ensures Swept(sh', params, now).WellFormed()
    ensures PartlySwept(sh, Swept(sh', params, now), todo - {params}, now)
  {
    hide Idle;
    assert sh'.conns[sh'.active[params]] == sh.conns[sh.active[params]];
  }

  lemma SweepBegins(sh: Shared, now: int)
    requires sh.WellFormed()
    ensures PartlySwept(sh, sh, sh.active.Keys, now)
  {
  }

  lemma SweepEnds(sh: Shared, sh': Shared, now: int)
    requires sh.WellFormed() && PartlySwept(sh, sh', {}, now)
    ensures SweepDone(sh, sh', now)
  {
  }

  lemma SweepMeans(sh: Shared, sh': Shared, now: int)
    requires sh.WellFormed() && SweepDone(sh, sh', now)
    ensures forall p | p in sh.active ::
              var c := sh.conns[sh.active[p]];
              var idle := !c.phase.Failed? && c.refCount <= 0 && now - c.lastOpened > 60;
              && (p in sh'.active <==> !idle && !c.phase.Failed?)
              && sh.active[p] < |sh'.conns|
              && sh'.conns[sh.active[p]] == if idle then c.(closes := c.closes + 1) else c
  {
  }

  /** The entries of the dead list whose connections are still in use, in order. */
  function StillUsed(conns: seq<Conn>, dead: seq<nat>): seq<nat>
    requires forall i | 0 <= i < |dead| :: dead[i] < |conns|
  {
    if dead == [] then []
    else
      var last := dead[|dead| - 1];
      StillUsed(conns, dead[..|dead| - 1]) + if conns[last].refCount <= 0 then [] else [last]
  }

  lemma StillUsedOneMore(conns: seq<Conn>, dead: seq<nat>, i: nat)
    requires i < |dead| && forall k | 0 <= k < |dead| :: dead[k] < |conns|
    ensures StillUsed(conns, dead[..i + 1])
         == StillUsed(conns, dead[..i]) + if conns[dead[i]].refCount <= 0 then [] else [dead[i]]
  {
    assert dead[..i + 1][..i] == dead[..i];
  }

  /** What one uninterrupted walk over the dead list does: entries in use stay, in order, and each other entry has
      its connection closed once. */
  ghost predicate ReapDone(sh: Shared, sh': Shared)
    requires sh.WellFormed()
  {
    sh'.active == sh.active && sh'.dead == StillUsed(sh.conns, sh.dead) && ClosedUnused(sh.conns, sh'.conns, sh.dead)
  }

  /** How often a connection is on the list. */
  ghost function Entries(dead: seq<nat>, id: nat): nat
  {
    if dead == [] then 0 else Entries(dead[..|dead| - 1], id) + if dead[|dead| - 1] == id then 1 else 0
  }

  lemma EntriesOneMore(dead: seq<nat>, i: nat)
    requires i < |dead|
    ensures forall id: nat :: Entries(dead[..i + 1], id) == Entries(dead[..i], id) + if dead[i] == id then 1 else 0
  {
    assert dead[..i + 1][..i] == dead[..i];
  }

  ghost predicate ClosedUnused(conns: seq<Conn>, conns': seq<Conn>, dead: seq<nat>)
  {
    && |conns'| == |conns|
    && forall id | 0 <= id < |conns| ::
         conns'[id] == if conns[id].refCount <= 0
                       then conns[id].(closes := conns[id].closes + Entries(dead, id)) else conns[id]
  }

  lemma NoneReaped(conns: seq<Conn>)
    ensures ClosedUnused(conns, conns, [])
  {
  }

  lemma {:induction false} StillUsedAreDead(conns: seq<Conn>, dead: seq<nat>)
    requires forall i | 0 <= i < |dead| :: dead[i] < |conns|
    ensures forall i | 0 <= i < |StillUsed(conns, dead)| :: StillUsed(conns, dead)[i] < |conns|
  {
    if dead != [] {
      StillUsedAreDead(conns, dead[..|dead| - 1]);
    }
  }

  lemma StaysWellFormed(sh: Shared, sh': Shared)
    requires sh.WellFormed() && ReapDone(sh, sh')
    ensures sh'.WellFormed()
  {
    StillUsedAreDead(sh.conns, sh.dead);
  }

  /** What the walk has done when the entries from position `i` on are still to be looked at. */
  ghost predicate ReapedUpTo(conns: seq<Conn>, conns': seq<Conn>, dead: seq<nat>, i: nat, stillUsed: seq<nat>)
  {
    && i <= |dead| && (forall k | 0 <= k < |dead| :: dead[k] < |conns|)
    && stillUsed == StillUsed(conns, dead[..i])
    && ClosedUnused(conns, conns', dead[..i])
  }

  lemma ReapBegins(sh: Shared)
    requires sh.WellFormed()
    ensures ReapedUpTo(sh.conns, sh.conns, sh.dead, 0, [])
  {
    NoneReaped(sh.conns);
  }

  /** One look of the collector at a dead connection: it is closed if it has no references, and otherwise kept. */
  lemma ReapStep(conns: seq<Conn>, sh': Shared, i: nat, stillUsed: seq<nat>)
    requires i < |sh'.dead| && ReapedUpTo(conns, sh'.conns, sh'.dead, i, stillUsed)
    ensures sh'.dead[i] < |sh'.conns|
    ensures var id, c := sh'.dead[i], sh'.conns[sh'.dead[i]];
            && (c.refCount <= 0 ==>
                  && Reaped(sh', id) == (sh'.(conns := sh'.conns[id := c.(closes := c.closes + 1)]), false)
                  && ReapedUpTo(conns, sh'.conns[id := c.(closes := c.closes + 1)], sh'.dead, i + 1, stillUsed))
            && (c.refCount > 0 ==>
                  && Reaped(sh', id) == (sh', true)
                  && ReapedUpTo(conns, sh'.conns, sh'.dead, i + 1, stillUsed + [id]))
  {
    var dead := sh'.dead;
    StillUsedOneMore(conns, dead, i);
    EntriesOneMore(dead, i);
    hide StillUsed, Entries;
  }

  lemma ReapEnds(sh: Shared, sh': Shared)
    requires sh.WellFormed() && sh'.active == sh.active
    requires ReapedUpTo(sh.conns, sh'.conns, sh.dead, |sh.dead|, sh'.dead)
    ensures sh'.WellFormed() && ReapDone(sh, sh')
  {
    assert sh.dead[..|sh.dead|] == sh.dead;
    StaysWellFormed(sh, sh');
  }

  class Manager {
    var conns: seq<Conn>
    var active: map<string, nat>
    var dead: seq<nat>

    constructor ()
      ensures View() == Shared([], map[], [])
    {
      conns, active, dead := [], map[], [];
    }

    ghost function View(): Shared
      reads this
    {
      Shared(conns, active, dead)
    }

    method Get(params: string, now: int) returns (id: nat, check: bool)
      requires View().WellFormed()
      modifies this
      ensures (View(), id, check) == Got(old(View()), params, now)
      ensures IsGot(old(View()), params, now, View(), id, check)
    {
      GotMeans(View(), params, now);
      check := false;
      if params in active {
        id := active[params];
        if conns[id].phase.Failed? {
          active := active - {params};
        } else {
          check := conns[id].phase.Up?;
          return;
        }
      }
      id := |conns|;
      conns := conns + [Conn(params, Connecting, 0, now, now, now, 0)];
      active := active[params := id];
      assert active == old(active)[params := id];
    }

    method CheckIsDue(id: nat, now: int) returns (due: bool)
      requires id < |conns|
      modifies this`conns
      ensures due <==> ShouldCheck(old(conns[id]), now)
      ensures due <==> now - old(conns[id].lastChecked) >= 10
      ensures conns == if due then old(conns)[id := old(conns[id]).(lastChecked := now)] else old(conns)
    {
      due := now - conns[id].lastChecked >= LIVENESS_CHECK_PERIOD;
      if due {
        conns := conns[id := conns[id].(lastChecked := now)];
      }
    }

    method RemoveBad(params: string, id: nat)
      modifies this
      ensures View() == Buried(old(View()), params, id)
      ensures IsBuried(old(View()), params, id, View())
    {
      if params !in active || active[params] != id {
        return;
      }
      active := active - {params};
      dead := dead + [id];
    }

    method Sweep(now: int)
      requires View().WellFormed()
      modifies this
      ensures View().WellFormed() && SweepDone(old(View()), View(), now)
      ensures forall p | p in old(active) ::
                var c := old(conns)[old(active)[p]];
                var idle := !c.phase.Failed? && c.refCount <= 0 && now - c.lastOpened > 60;
                && (p in active <==> !idle && !c.phase.Failed?)
                && conns[old(active)[p]] == if idle then c.(closes := c.closes + 1) else c
    {
      hide PartlySwept, SweepDone;
      var todo := active.Keys;
      ghost var sh := View();
      SweepBegins(sh, now);
      while todo != {}
        invariant View().WellFormed() && PartlySwept(sh, View(), todo, now)
      {
        var params :| params in todo;
        SweepOne(sh, View(), todo, now, params);
        todo := todo - {params};
        var id := active[params];
        ghost var next := Swept(View(), params, now);
        if conns[id].phase.Failed? {
          active := active - {params};
        } else if conns[id].refCount <= 0 && now - conns[id].lastOpened > IDLE_TTL {
          conns := conns[id := conns[id].(closes := conns[id].closes + 1)];
          active := active - {params};
        }
        assert View() == next;
      }
      SweepEnds(sh, View(), now);
      SweepMeans(sh, View(), now);
    }

    method Reap()
      requires View().WellFormed()
      modifies this
      ensures View().WellFormed() && ReapDone(old(View()), View())
    {
      var stillUsed := [];
      ghost var sh := View();
      ReapBegins(sh);
      hide ReapedUpTo, Reaped, Shared.WellFormed;
      for i := 0 to |dead|
        invariant active == sh.active && dead == sh.dead
        invariant ReapedUpTo(sh.conns, conns, dead, i, stillUsed)
      {
        ReapStep(sh.conns, View(), i, stillUsed);
        var id := dead[i];
        var c := conns[id];
        if c.refCount <= 0 {
          conns := conns[id := c.(closes := c.closes + 1)];
        } else {
          stillUsed := stillUsed + [id];
        }
      }
      dead := stillUsed;
      ReapEnds(sh, View());
    }

    /** `gc`, when nothing else runs in between. */
    method Gc(now: int)
      requires View().WellFormed()
      modifies this
      ensures exists swept: Shared ::
                && swept.WellFormed() && SweepDone(old(View()), swept, now)
                && ReapDone(swept, View())
    {
      Sweep(now);
      ghost var swept := View();
      Reap();
      assert swept.WellFormed() && SweepDone(old(View()), swept, now) && ReapDone(swept, View());
    }
  }
}
