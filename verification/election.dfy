/** The election of an initial primary for a shard that was restored from a backup. */
module Election {
  import opened Wrappers

  datatype TabletType = Primary | Replica | Rdonly | Spare | OtherType

  /** A replication position: a set of GTIDs. */
  type Position = set<nat>

  predicate AtLeast(a: Position, b: Position)
  {
    a >= b
  }

  /** What a tablet answers when it is asked for its status, if it answers. */
  datatype Status = Unreachable | Status(databaseExists: bool, position: Position)

  /** The topology server's records of the shard, and the promotions that have ever taken effect. */
  datatype World = World(shardPrimary: Option<string>, tablets: map<string, TabletType>, promotions: seq<string>)

  /** A remote call takes effect and is answered, does not take effect, or takes effect although the caller sees
      an error or does not live to see the answer. */
  datatype Outcome = Answered | NoEffect | EffectOnly

  ghost function Primaries(tablets: map<string, TabletType>): set<string>
  {
    set a | a in tablets && tablets[a].Primary?
  }

  function Promoted(w: World, a: string, o: Outcome): World
  {
    if o.NoEffect? then w
    else w.(tablets := w.tablets[a := Primary], promotions := w.promotions + [a])
  }

  function Recorded(w: World, a: string, o: Outcome): World
  {
    if o.NoEffect? then w else w.(shardPrimary := Some(a))
  }

  /** A tablet that may be promoted: a replica that has answered, and has finished its restore. */
  predicate Eligible(tablets: map<string, TabletType>, status: map<string, Status>, a: string)
  {
    && a in tablets && tablets[a].Replica?
    && a in status && status[a].Status? && status[a].databaseExists
  }

  // ------------------------------------------------------------ one attempt, as code

  datatype Result = Elected(alias: string) | Failed

  /** What happens around an attempt: whether its reads succeed, whether it still has the lock when it checks, in
      which order the statuses arrive, and how its two writes end. */
  datatype Circumstances = Circumstances(readsSucceed: bool, stillLocked: bool, status: map<string, Status>,
                                         arrivals: seq<string>, promote: Outcome, record: Outcome)

  /** Everyone answers exactly once, if at all. */
  ghost predicate Plausible(c: Circumstances, tablets: map<string, TabletType>)
  {
    && c.status.Keys == tablets.Keys
    && (forall a :: a in c.arrivals <==> a in tablets)
    && forall i, j | 0 <= i < j < |c.arrivals| :: c.arrivals[i] != c.arrivals[j]
  }

  ghost predicate NoCandidate(w: World, c: Circumstances)
  {
    forall a :: !Eligible(w.tablets, c.status, a)
  }

  /** No candidate is ahead of `a`, as far as positions can be compared. */
  ghost predicate Farthest(tablets: map<string, TabletType>, status: map<string, Status>, a: string)
    requires Eligible(tablets, status, a)
  {
    Comparable(tablets, status) ==>
      forall b | Eligible(tablets, status, b) :: AtLeast(status[a].position, status[b].position)
  }

  /** What one attempt may do to the records, and what it may return. */
  ghost predicate Attempted(w: World, w': World, c: Circumstances, r: Result)
  {
    var existing := Primaries(w.tablets);
    if w.shardPrimary.Some? || !c.readsSucceed || |existing| > 1 || !c.stillLocked
       || (existing == {} && NoCandidate(w, c)) then
      w' == w && r == Failed
    else if existing != {} then
      exists a | a in existing ::
        && w' == Recorded(w, a, c.record)
        && r == if c.record.Answered? then Elected(a) else Failed
    else
      exists a | Eligible(w.tablets, c.status, a) && Farthest(w.tablets, c.status, a) ::
        && w' == (if c.promote.Answered? then Recorded(Promoted(w, a, c.promote), a, c.record)
                  else Promoted(w, a, c.promote))
        && r == if c.promote.Answered? && c.record.Answered? then Elected(a) else Failed
  }

  class Topo {
    var world: World

    constructor (world: World)
      ensures this.world == world
    {
      this.world := world;
    }

    /** Whether any tablet has already been promoted; the records are visited in any order. */
    method FindExistingPrimary() returns (found: Option<string>, multiple: bool)
      ensures multiple <==> |Primaries(world.tablets)| > 1
      ensures !multiple ==> match found
                            case None => Primaries(world.tablets) == {}
                            case Some(a) => Primaries(world.tablets) == {a}
    {
      found, multiple := None, false;
      var tablets := world.tablets;
      var todo := tablets.Keys;
      assert Primaries(tablets) <= tablets.Keys;
      while todo != {}
        invariant todo <= tablets.Keys
        invariant Primaries(tablets) - todo == if found.None? then {} else {found.value}
      {
        var a :| a in todo;
        LookAt(tablets, todo, a);
        hide Primaries;
        if tablets[a].Primary? {
          if found.Some? {
            AtLeastTwo(Primaries(tablets), a, found.value);
            return None, true;
          }
          found := Some(a);
        }
        todo := todo - {a};
      }
      assert Primaries(tablets) - {} == Primaries(tablets);
    }

    /** The candidate that is farthest ahead among the answers, as far as positions can be compared. */
    method ChooseCandidate(c: Circumstances) returns (candidate: Option<string>)
      requires Plausible(c, world.tablets)
      ensures candidate.None? <==> NoCandidate(world, c)
      ensures candidate.Some? ==>
                Eligible(world.tablets, c.status, candidate.value)
                && Farthest(world.tablets, c.status, candidate.value)
      // A candidate is a replica that has answered and has its database, and if there is one, one is chosen.
      ensures candidate.Some? ==>
                && candidate.value in world.tablets && world.tablets[candidate.value] == Replica
                && candidate.value in c.status && c.status[candidate.value].Status?
                && c.status[candidate.value].databaseExists
      ensures candidate.None? ==> forall a | a in world.tablets && world.tablets[a] == Replica && a in c.status ::
                                    c.status[a].Unreachable? || !c.status[a].databaseExists
    {
      candidate := None;
      var tablets := world.tablets;
      for i := 0 to |c.arrivals|
        invariant Best(tablets, c.status, c.arrivals[..i], candidate)
      {
        var a := c.arrivals[i];
        assert c.arrivals[..i + 1] == c.arrivals[..i] + [a];
        assert a in c.arrivals;
        BestOneMore(tablets, c.status, c.arrivals[..i], candidate, a);
        var status := c.status[a];
        if status.Unreachable? || !status.databaseExists {
          continue;
        }
        if tablets[a].Replica? {
          if candidate.None? || !AtLeast(c.status[candidate.value].position, status.position) {
            candidate := Some(a);
          }
        }
      }
      assert c.arrivals[..|c.arrivals|] == c.arrivals;
      forall a | Eligible(tablets, c.status, a) ensures a in c.arrivals {
      }
      if candidate.None? {
        assert forall a | a in tablets && a in c.status :: !Eligible(tablets, c.status, a);
      }
    }

    /** Called with the shard lock held. */
    method ElectInitialShardPrimary(c: Circumstances) returns (r: Result)
      requires Plausible(c, world.tablets)
      modifies this
      ensures Attempted(old(world), world, c, r)
    {
      if !c.readsSucceed || world.shardPrimary.Some? {
        return Failed;
      }
      var existing, multiple := FindExistingPrimary();
      if multiple {
        return Failed;
      }
      if existing.Some? {
        if !c.stillLocked {
          return Failed;
        }
        world := Recorded(world, existing.value, c.record);
        assert existing.value in Primaries(old(world).tablets);
        return if c.record.Answered? then Elected(existing.value) else Failed;
      }
      var candidate := ChooseCandidate(c);
      if candidate.None? || !c.stillLocked {
        return Failed;
      }
      world := Promoted(world, candidate.value, c.promote);
      if !c.promote.Answered? {
        return Failed;
      }
      world := Recorded(world, candidate.value, c.record);
      return if c.record.Answered? then Elected(candidate.value) else Failed;
    }
  }

  lemma LookAt(tablets: map<string, TabletType>, todo: set<string>, a: string)
    requires a in todo && todo <= tablets.Keys
    ensures Primaries(tablets) - (todo - {a}) == (Primaries(tablets) - todo) + if tablets[a].Primary? then {a} else {}
    ensures a in Primaries(tablets) <==> tablets[a].Primary?
  {
  }

  lemma AtLeastTwo(s: set<string>, a: string, b: string)
    requires a in s && b in s && a != b
    ensures |s| > 1
  {
    assert {a, b} <= s;
    assert s == (s - {a, b}) + {a, b};
    assert |s| == |s - {a, b}| + |{a, b}|;
  }

  /** The candidate after the answers `seen`. */
  ghost predicate Best(tablets: map<string, TabletType>, status: map<string, Status>, seen: seq<string>,
                       candidate: Option<string>)
  {
    && (candidate.None? <==> forall a | a in seen :: !Eligible(tablets, status, a))
    && (candidate.Some? ==> Eligible(tablets, status, candidate.value) && candidate.value in seen)
    && (candidate.Some? && Comparable(tablets, status) ==>
          forall a | a in seen && Eligible(tablets, status, a) ::
            AtLeast(status[candidate.value].position, status[a].position))
  }

  lemma BestOneMore(tablets: map<string, TabletType>, status: map<string, Status>, seen: seq<string>,
                    candidate: Option<string>, a: string)
    requires Best(tablets, status, seen, candidate)
    ensures Eligible(tablets, status, a)
            && (candidate.None? || !AtLeast(status[candidate.value].position, status[a].position)) ==>
              Best(tablets, status, seen + [a], Some(a))
    ensures !Eligible(tablets, status, a)
            || (candidate.Some? && AtLeast(status[candidate.value].position, status[a].position)) ==>
              Best(tablets, status, seen + [a], candidate)
  {
    assert a in seen + [a];
    assert forall b | b in seen + [a] :: b in seen || b == a;
  }

  ghost predicate Comparable(tablets: map<string, TabletType>, status: map<string, Status>)
  {
    forall a, b | Eligible(tablets, status, a) && Eligible(tablets, status, b) ::
      AtLeast(status[a].position, status[b].position) || AtLeast(status[b].position, status[a].position)
  }

  // ------------------------------------------------------------ all attempts, step by step

  /** Where the attempt that holds the shard lock has got to. What it has read may be out of date. */
  datatype Phase =
    | Unlocked
    | Locked
    | NoPrimaryRecorded
    | Repairing(existing: string)
    | Choosing(tablets: map<string, TabletType>)
    | Promoting(candidate: string)
    | Recording(promoted: string)

  datatype System = System(world: World, phase: Phase)

  datatype Step =
    | Acquire
    | ReadShard
    | ReadTablets
    | Choose(candidate: string)
    | Promote(outcome: Outcome)
    | Record(outcome: Outcome)
    | Crash                                            // or give up with an error; the lock is released
    | ChangeTablet(alias: string, type': TabletType)   // restores, restarts, new tablets: anyone else
    | RemoveTablet(alias: string)

  /** Nobody else promotes tablets, or changes or removes the record of a primary. */
  ghost predicate Enabled(s: System, step: Step)
  {
    match step
    case Acquire => s.phase.Unlocked?
    case ReadShard => s.phase.Locked?
    case ReadTablets => s.phase.NoPrimaryRecorded?
    case Choose(a) => s.phase.Choosing? && a in s.phase.tablets && s.phase.tablets[a].Replica?
    case Promote(o) => s.phase.Promoting?
    case Record(o) => s.phase.Recording? || s.phase.Repairing?
    case Crash => !s.phase.Unlocked?
    case ChangeTablet(a, t) => !t.Primary? && a !in Primaries(s.world.tablets)
    case RemoveTablet(a) => a !in Primaries(s.world.tablets)
  }

  ghost function Next(s: System, step: Step): System
    requires Enabled(s, step)
  {
    var w := s.world;
    match step
    case Acquire => s.(phase := Locked)
    case ReadShard => s.(phase := if w.shardPrimary.Some? then Unlocked else NoPrimaryRecorded)
    case ReadTablets =>
      var existing := Primaries(w.tablets);
      if existing == {} then s.(phase := Choosing(w.tablets))
      else if |existing| > 1 then s.(phase := Unlocked)
      else
        var a :| a in existing;
        s.(phase := Repairing(a))
    case Choose(a) => s.(phase := Promoting(a))
    case Promote(o) =>
      System(Promoted(w, s.phase.candidate, o), if o.Answered? then Recording(s.phase.candidate) else Unlocked)
    case Record(o) =>
      System(Recorded(w, if s.phase.Recording? then s.phase.promoted else s.phase.existing, o), Unlocked)
    case Crash => s.(phase := Unlocked)
    case ChangeTablet(a, t) => s.(world := w.(tablets := w.tablets[a := t]))
    case RemoveTablet(a) => s.(world := w.(tablets := w.tablets - {a}))
  }

  ghost predicate Inv(s: System)
  {
    var w := s.world;
    && |w.promotions| <= 1
    && Primaries(w.tablets) == (if w.promotions == [] then {} else {w.promotions[0]})
    && (w.shardPrimary.Some? ==> w.promotions == [w.shardPrimary.value])
    && (s.phase.NoPrimaryRecorded? ==> w.shardPrimary.None?)
    && (s.phase.Choosing? || s.phase.Promoting? ==> w.promotions == [] && w.shardPrimary.None?)
    && (s.phase.Repairing? ==> w.promotions == [s.phase.existing])
    && (s.phase.Recording? ==> w.promotions == [s.phase.promoted])
  }

  lemma StepKeepsInv(s: System, step: Step)
    requires Inv(s) && Enabled(s, step)
    ensures Inv(Next(s, step))
    ensures s.world.promotions <= Next(s, step).world.promotions
  {
    var w, w' := s.world, Next(s, step).world;
    match step
    case Promote(o) =>
      assert Primaries(w.tablets[s.phase.candidate := Primary]) == Primaries(w.tablets) + {s.phase.candidate};
    case ChangeTablet(a, t) => assert Primaries(w'.tablets) == Primaries(w.tablets);
    case RemoveTablet(a) => assert Primaries(w'.tablets) == Primaries(w.tablets);
    case _ =>
  }

  ghost predicate Run(states: seq<System>, steps: seq<Step>)
  {
    && |states| == |steps| + 1
    && states[0].phase.Unlocked? && states[0].world.shardPrimary.None? && states[0].world.promotions == []
    && Primaries(states[0].world.tablets) == {}
    && forall i | 0 <= i < |steps| :: Enabled(states[i], steps[i]) && states[i + 1] == Next(states[i], steps[i])
  }

  lemma {:induction false} RunKeepsInv(states: seq<System>, steps: seq<Step>, i: nat)
    requires Run(states, steps) && i < |states|
    ensures Inv(states[i])
  {
    if i > 0 {
      RunKeepsInv(states, steps, i - 1);
      StepKeepsInv(states[i - 1], steps[i - 1]);
    }
  }

  /** However often the election is attempted, wherever attempts crash, and however remote calls end: at most one
      promotion ever takes effect, that tablet is the only one to claim to be primary, and the shard record names
      no other. */
  lemma OnePromotion(states: seq<System>, steps: seq<Step>, i: nat)
    requires Run(states, steps) && i < |states|
    ensures |states[i].world.promotions| <= 1
    ensures forall a :: a in Primaries(states[i].world.tablets) <==> states[i].world.promotions == [a]
    ensures forall a :: states[i].world.shardPrimary == Some(a) ==> states[i].world.promotions == [a]
  {
    RunKeepsInv(states, steps, i);
  }

  /** After a crash between promotion and recording, an attempt that gets through repairs the record, whatever the
      other tablets do meanwhile, and promotes nobody. */
  lemma RetryRepairs(w: World, c: Circumstances, w': World, r: Result, a: string)
    requires Inv(System(w, Unlocked)) && w.promotions == [a] && w.shardPrimary.None?
    requires Attempted(w, w', c, r)
    ensures w'.promotions == [a]
    ensures c.readsSucceed && c.stillLocked && c.record.Answered? ==> w'.shardPrimary == Some(a) && r == Elected(a)
    ensures r != Failed ==> r == Elected(a)
  {
    assert Primaries(w.tablets) == {a};
  }

  /** If nothing fails and there is no primary, but a replica that has finished its restore, an attempt promotes such a
      replica, records it, and says so. */
  lemma ElectsWhenPossible(w: World, c: Circumstances, w': World, r: Result, candidate: string)
    requires Attempted(w, w', c, r)
    requires w.shardPrimary.None? && c.readsSucceed && c.stillLocked && c.promote.Answered? && c.record.Answered?
    requires forall a | a in w.tablets :: w.tablets[a] != Primary
    requires candidate in w.tablets && w.tablets[candidate] == Replica && candidate in c.status
    requires c.status[candidate].Status? && c.status[candidate].databaseExists
    ensures r.Elected? && r.alias in w.tablets && w.tablets[r.alias] == Replica
    ensures r.alias in c.status && c.status[r.alias].Status? && c.status[r.alias].databaseExists
    ensures w' == World(Some(r.alias), w.tablets[r.alias := Primary], w.promotions + [r.alias])
  {
    assert Primaries(w.tablets) == {};
    assert Eligible(w.tablets, c.status, candidate);
  }

  /** Without a chance nothing is written: a primary is recorded, a read fails, the lock is lost, several tablets claim
      to be primary, or none does and no replica has finished its restore. */
  lemma FailsWithoutAWrite(w: World, c: Circumstances, w': World, r: Result)
    requires Attempted(w, w', c, r)
    requires || w.shardPrimary.Some? || !c.readsSucceed || !c.stillLocked
             || (exists a, b :: a != b && a in w.tablets && b in w.tablets && w.tablets[a] == w.tablets[b] == Primary)
             || forall a | a in w.tablets ::
                  w.tablets[a] != Primary
                  && (w.tablets[a] == Replica && a in c.status ==>
                        c.status[a].Unreachable? || !c.status[a].databaseExists)
    ensures w' == w && r == Failed
  {
    if a, b :| a != b && a in w.tablets && b in w.tablets && w.tablets[a] == w.tablets[b] == Primary {
      AtLeastTwo(Primaries(w.tablets), a, b);
    } else if forall a | a in w.tablets ::
                w.tablets[a] != Primary
                && (w.tablets[a] == Replica && a in c.status ==> c.status[a].Unreachable? || !c.status[a].databaseExists) {
      assert Primaries(w.tablets) == {};
    }
  }

  /** If a write took effect but its answer is lost, the attempt fails although the tablet has become primary. If it is
      the promotion whose answer is lost, no record says so: the state from which a retry repairs the record. */
  lemma LostAnswer(w: World, c: Circumstances, w': World, r: Result, candidate: string)
    requires Attempted(w, w', c, r)
    requires w.shardPrimary.None? && c.readsSucceed && c.stillLocked
    requires forall a | a in w.tablets :: w.tablets[a] != Primary
    requires candidate in w.tablets && w.tablets[candidate] == Replica && candidate in c.status
    requires c.status[candidate].Status? && c.status[candidate].databaseExists
    requires c.promote == EffectOnly || (c.promote == Answered && c.record == EffectOnly)
    ensures r == Failed && |w'.promotions| == |w.promotions| + 1
    ensures var a := w'.promotions[|w.promotions|];
            && a in w.tablets && w.tablets[a] == Replica
            && w' == World(if c.promote == Answered then Some(a) else None, w.tablets[a := Primary], w.promotions + [a])
  {
    assert Primaries(w.tablets) == {};
    assert Eligible(w.tablets, c.status, candidate);
  }

  ghost predicate IsPath(states: seq<System>, steps: seq<Step>, first: System, last: System)
  {
    && |states| == |steps| + 1 && states[0] == first && states[|steps|] == last
    && forall i | 0 <= i < |steps| :: Enabled(states[i], steps[i]) && states[i + 1] == Next(states[i], steps[i])
  }

  lemma PathGrows(states: seq<System>, steps: seq<Step>, first: System, last: System, step: Step)
    requires IsPath(states, steps, first, last) && Enabled(last, step)
    ensures IsPath(states + [Next(last, step)], steps + [step], first, Next(last, step))
  {
    hide Next, Enabled;
  }

  /** Up to the choice between repair and election. */
  lemma PathToReading(w: World) returns (states: seq<System>, steps: seq<Step>)
    requires w.shardPrimary.None?
    ensures IsPath(states, steps, System(w, Unlocked), System(w, NoPrimaryRecorded))
  {
    states := [System(w, Unlocked), System(w, Locked), System(w, NoPrimaryRecorded)];
    steps := [Acquire, ReadShard];
  }

  lemma RepairIsRun(w: World, a: string, o: Outcome) returns (states: seq<System>, steps: seq<Step>)
    requires w.shardPrimary.None? && Primaries(w.tablets) == {a}
    ensures IsPath(states, steps, System(w, Unlocked), System(Recorded(w, a, o), Unlocked))
  {
    var reading, repairing := System(w, NoPrimaryRecorded), System(w, Repairing(a));
    states, steps := PathToReading(w);
    assert Next(reading, ReadTablets) == repairing;
    PathGrows(states, steps, System(w, Unlocked), reading, ReadTablets);
    states, steps := states + [repairing], steps + [ReadTablets];
    PathGrows(states, steps, System(w, Unlocked), repairing, Record(o));
    states, steps := states + [System(Recorded(w, a, o), Unlocked)], steps + [Record(o)];
  }

  lemma PathToPromoting(w: World, a: string) returns (states: seq<System>, steps: seq<Step>)
    requires w.shardPrimary.None? && Primaries(w.tablets) == {} && a in w.tablets && w.tablets[a].Replica?
    ensures IsPath(states, steps, System(w, Unlocked), System(w, Promoting(a)))
  {
    var reading, choosing := System(w, NoPrimaryRecorded), System(w, Choosing(w.tablets));
    states, steps := PathToReading(w);
    PathGrows(states, steps, System(w, Unlocked), reading, ReadTablets);
    states, steps := states + [choosing], steps + [ReadTablets];
    PathGrows(states, steps, System(w, Unlocked), choosing, Choose(a));
    states, steps := states + [System(w, Promoting(a))], steps + [Choose(a)];
  }

  lemma PromotionIsRun(w: World, a: string, promote: Outcome, record: Outcome)
    returns (states: seq<System>, steps: seq<Step>)
    requires w.shardPrimary.None? && Primaries(w.tablets) == {} && a in w.tablets && w.tablets[a].Replica?
    ensures IsPath(states, steps, System(w, Unlocked),
                   System(if promote.Answered? then Recorded(Promoted(w, a, promote), a, record)
                          else Promoted(w, a, promote), Unlocked))
  {
    var promoting, promoted := System(w, Promoting(a)), Promoted(w, a, promote);
    var next := System(promoted, if promote.Answered? then Recording(a) else Unlocked);
    states, steps := PathToPromoting(w, a);
    assert Next(promoting, Promote(promote)) == next;
    PathGrows(states, steps, System(w, Unlocked), promoting, Promote(promote));
    states, steps := states + [next], steps + [Promote(promote)];
    if promote.Answered? {
      PathGrows(states, steps, System(w, Unlocked), next, Record(record));
      states, steps := states + [System(Recorded(promoted, a, record), Unlocked)], steps + [Record(record)];
    }
  }

  /** An attempt, run without interruption, is one of the runs above. */
  lemma AttemptIsRun(w: World, c: Circumstances, w': World, r: Result) returns (states: seq<System>, steps: seq<Step>)
    requires Inv(System(w, Unlocked)) && Attempted(w, w', c, r)
    ensures IsPath(states, steps, System(w, Unlocked), System(w', Unlocked))
  {
    if w' == w {
      return [System(w, Unlocked)], [];
    }
    hide IsPath;
    var existing := Primaries(w.tablets);
    if existing != {} {
      var a :| a in existing && w' == Recorded(w, a, c.record);
      assert existing == {a};
      states, steps := RepairIsRun(w, a, c.record);
    } else {
      var a :| Eligible(w.tablets, c.status, a) && Farthest(w.tablets, c.status, a)
               && w' == if c.promote.Answered? then Recorded(Promoted(w, a, c.promote), a, c.record)
                        else Promoted(w, a, c.promote);
      states, steps := PromotionIsRun(w, a, c.promote, c.record);
    }
  }
}
