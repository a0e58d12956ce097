/** The drain protocol needs its assumptions: passes that overlap, and caches that are behind by different amounts for
    different Pods, can each lead to two finished tablets. */
module DrainAssumptions {
  import opened Annotations
  import opened Drain
  import opened DrainProtocol
  import opened ReconcileDrain

  // ------------------------------------------------------------ overlapping passes

  /** Two controllers of one shard, each of which keeps to the protocol. */
  datatype Pair = Pair(first: System, second: System)

  /** One of the two takes a step `step` of the protocol, the other one only sees the history grow; a pass reads no
      snapshot older than that of any pass before, whoever made it. */
  ghost predicate PairNext(p: Pair, p': Pair, step: Step, byFirst: bool)
  {
    if byFirst then Moves(p.first, p'.first, p.second, p'.second, step)
    else Moves(p.second, p'.second, p.first, p'.first, step)
  }

  ghost predicate Moves(s: System, s': System, other: System, other': System, step: Step)
  {
    && s.WellFormed() && Next(s, s', step)
    && other' == other.(history := s'.history)
    && (step.BeginPass? ==> other.snapshot <= s'.snapshot)
  }

  ghost predicate OverlappingRun(states: seq<Pair>, steps: seq<(Step, bool)>)
  {
    && |states| == |steps| + 1
    && Initial(states[0].first) && states[0].second == states[0].first
    && forall i | 0 <= i < |steps| :: PairNext(states[i], states[i + 1], steps[i].0, steps[i].1)
  }

  lemma ReadsInOrder(s: System, s': System, step: Step)
    requires s.WellFormed() && NextReading(s, s', step, 0) && (step.BeginPass? ==> s.snapshot <= s'.snapshot)
    ensures Next(s, s', step)
  {
  }

  /** The first controller reads state 0 and is slow to finish "b"; meanwhile the second one acknowledges and finishes
      "a". */
  ghost function OverlapState(i: nat): Pair
  {
    if i == 0 then Pair(System(Told(0), 0, Idle), System(Told(0), 0, Idle))
    else if i == 1 then Pair(System(Told(0), 0, Running("", {"b"})), System(Told(0), 0, Idle))
    else if i == 2 then Pair(System(Told(1), 0, Running("", {"b"})), System(Told(1), 0, Idle))
    else if i == 3 then Pair(System(Told(1), 0, Running("", {"b"})), System(Told(1), 1, Running("", {"a"})))
    else if i == 4 then Pair(System(Told(2), 0, Running("", {"b"})), System(Told(2), 1, Running("", {})))
    else if i == 5 then Pair(System(Told(2), 0, Running("", {"b"})), System(Told(2), 1, Idle))
    else if i == 6 then Pair(System(Told(2), 0, Running("", {"b"})), System(Told(2), 2, Running("", {"a"})))
    else if i == 7 then Pair(System(Told(3), 0, Running("", {"b"})), System(Told(3), 2, Running("", {})))
    else Pair(System(Told(4), 0, Running("", {})), System(Told(4), 2, Running("", {})))
  }

  ghost function OverlapStep(i: nat): (Step, bool)
  {
    if i == 0 then (BeginPass(""), true)
    else if i == 1 then (Foreign("a"), false)
    else if i == 2 || i == 5 then (BeginPass(""), false)
    else if i == 3 || i == 6 then (Write("a", ""), false)
    else if i == 4 then (EndPass, false)
    else (Write("b", ""), true)
  }

  lemma FirstRead()
    ensures System(Told(0), 0, Idle).WellFormed()
    ensures NextReading(System(Told(0), 0, Idle), System(Told(0), 0, Running("", {"b"})), BeginPass(""), 0)
  {
    hide Plan, View, Story;
    StoryPlans();
    ToldAt(0, 0);
    assert map["b" := Finished].Keys == {"b"};
  }

  lemma OverlapUnfolds(i: nat)
    requires i < 8
    ensures PairNext(OverlapState(i), OverlapState(i + 1), OverlapStep(i).0, OverlapStep(i).1)
  {
    hide Told, NextReading;
    StoryBegins();
    var p, q := OverlapState(i), OverlapState(i + 1);
    var (step, byFirst) := OverlapStep(i);
    if i == 0 { FirstRead(); }
    else if i == 2 { StoryRead(1, 1, 0, "a"); }
    else if i == 3 { StoryWrite(1, 2, "a"); }
    else if i == 4 { Ends(System(Told(2), 1, Running("", {}))); }
    else if i == 5 { StoryRead(2, 2, 1, "a"); }
    else if i == 6 { StoryWrite(2, 3, "a"); }
    else if i == 7 { StoryWrite(0, 4, "b"); }
    if byFirst {
      ReadsInOrder(p.first, q.first, step);
    } else {
      ReadsInOrder(p.second, q.second, step);
    }
  }

  lemma Ends(s: System)
    requires s.WellFormed() && s.controller.Running?
    ensures NextReading(s, s.(controller := Idle), EndPass, 0)
  {
  }

  /** If two passes overlap, two tablets can end up finished, even though both read in order. */
  lemma OverlapBreaksSafety() returns (states: seq<Pair>, steps: seq<(Step, bool)>)
    ensures OverlappingRun(states, steps)
    ensures var s := states[|steps|].first; s.WellFormed() && !AtMostOneFinished(s.Current())
  {
    hide Told, AtMostOneFinished, OverlapStep, Initial, PairNext;
    states, steps := seq(9, (i: nat) => OverlapState(i)), seq(8, (i: nat) => OverlapStep(i));
    StoryBegins();
    assert states[0] == Pair(System(Told(0), 0, Idle), System(Told(0), 0, Idle));
    assert states[8].first == System(Told(4), 0, Running("", {}));
    hide OverlapState;
    forall i | 0 <= i < |steps|
      ensures PairNext(states[i], states[i + 1], steps[i].0, steps[i].1)
    {
      OverlapUnfolds(i);
    }
  }

  // ------------------------------------------------------------ a cache that is no past state

  /** Like the system of the protocol, but for what the running pass has read: `view` need not be a past state. */
  datatype Patched = Patched(history: seq<Cluster>, view: Cluster, controller: Controller)

  /** Every Pod is seen, or not seen, as it was in some past state, and never older than it was seen before. */
  ghost predicate Patchwork(history: seq<Cluster>, before: Cluster, view: Cluster)
  {
    && (forall n | n in view :: SeenOnce(history, view, n) && (n in before ==> before[n].version <= view[n].version))
    && forall n | n !in view :: exists i :: 0 <= i < |history| && n !in history[i]
  }

  ghost predicate SeenOnce(history: seq<Cluster>, view: Cluster, n: string)
  {
    n in view && exists i :: 0 <= i < |history| && n in history[i] && history[i][n] == view[n]
  }

  ghost predicate PatchedWrite(s: Patched, c: Cluster, c': Cluster, n: string, now: string)
  {
    && s.controller.Running? && n in s.controller.pending
    && n in c && n in s.view && c[n].version == s.view[n].version
    && n in Plan(View(s.view), s.controller.primary)
    && var target := Plan(View(s.view), s.controller.primary)[n];
    && !target.Draining?
    && n in c'
    && c'[n] == s.view[n].(version := |s.history|, annotations := Updated(s.view[n].annotations, target, now))
    && OnlyChanges(c, c', n)
  }

  ghost predicate PatchedNext(s: Patched, s': Patched, step: Step)
    requires |s.history| > 0
  {
    var c := s.history[|s.history| - 1];
    match step
    case Foreign(n) =>
      && |s'.history| == |s.history| + 1
      && s' == s.(history := s.history + [s'.history[|s.history|]])
      && ForeignWrite(c, s'.history[|s.history|], |s.history|, n)
    case BeginPass(primary) =>
      && s.controller.Idle?
      && Patchwork(s.history, s.view, s'.view)
      && s' == s.(view := s'.view, controller := Running(primary, Plan(View(s'.view), primary).Keys))
    case Write(n, now) =>
      && |s'.history| == |s.history| + 1
      && PatchedWrite(s, c, s'.history[|s.history|], n, now)
      && s' == s.(history := s.history + [s'.history[|s.history|]],
                  controller := s.controller.(pending := s.controller.pending - {n}))
    case LoseWrite(n) =>
      && s.controller.Running? && n in s.controller.pending
      && s' == s.(controller := s.controller.(pending := s.controller.pending - {n}))
    case EndPass =>
      s.controller.Running? && s' == s.(controller := Idle)
  }

  ghost function AsPatched(s: System): Patched
    requires s.WellFormed()
  {
    Patched(s.history, s.Observed(), s.controller)
  }

  /** A later past state is one of the patchworks that may be read. */
  lemma LaterStateIsPatchwork(h: seq<Cluster>, k: nat, m: nat)
    requires Versioned(h) && k <= m < |h|
    ensures Patchwork(h, h[k], h[m])
  {
    forall n | n in h[m] && n in h[k]
      ensures h[k][n].version <= h[m][n].version
    {
      if h[m][n].version <= k {
        assert h[k][n] == h[m][n];
      }
    }
  }

  lemma WriteIsPatched(s: System, c': Cluster, n: string, now: string)
    requires s.WellFormed() && WriteApplies(s, c', n, now)
    ensures PatchedWrite(AsPatched(s), s.Current(), c', n, now)
  {
    hide Plan, View, Updated;
  }

  lemma HistoryGrows(p: Patched, c': Cluster, step: Step)
    requires |p.history| > 0
    requires match step
             case Foreign(n) => ForeignWrite(p.history[|p.history| - 1], c', |p.history|, n)
             case Write(n, now) => PatchedWrite(p, p.history[|p.history| - 1], c', n, now)
             case _ => false
    ensures var controller := if step.Write? then p.controller.(pending := p.controller.pending - {step.name})
                              else p.controller;
            PatchedNext(p, p.(history := p.history + [c'], controller := controller), step)
  {
    hide ForeignWrite, PatchedWrite;
    assert (p.history + [c'])[|p.history|] == c';
  }

  lemma WriteStepIsPatched(s: System, s': System, step: Step)
    requires s.WellFormed() && (step.Write? || step.Foreign?) && Next(s, s', step)
    ensures s'.WellFormed() && PatchedNext(AsPatched(s), AsPatched(s'), step)
  {
    var c' := s'.history[|s.history|];
    if step.Write? {
      WriteIsPatched(s, c', step.name, step.now);
    }
    hide WriteApplies, PatchedWrite, ForeignWrite;
    HistoryGrows(AsPatched(s), c', step);
    hide PatchedNext;
    assert s'.history[s.snapshot] == s.history[s.snapshot];
  }

  /** Every step of the protocol is a step of the patched system, which only allows more to be read. */
  lemma ProtocolIsPatched(s: System, s': System, step: Step)
    requires Inv(s) && Next(s, s', step)
    ensures s'.WellFormed() && PatchedNext(AsPatched(s), AsPatched(s'), step)
  {
    assert Versioned(s.history);
    hide Inv, Plan, View, ForeignWrite, WriteApplies, PatchedWrite;
    if step.Write? || step.Foreign? {
      WriteStepIsPatched(s, s', step);
      hide PatchedNext;
    } else if step.BeginPass? {
      LaterStateIsPatchwork(s.history, s.snapshot, s'.snapshot);
      hide Patchwork;
    }
  }

  ghost predicate PatchedRun(states: seq<Patched>, steps: seq<Step>)
  {
    && |states| == |steps| + 1
    && |states[0].history| == 1 && Initial(System(states[0].history, 0, states[0].controller))
    && states[0].view == states[0].history[0]
    && forall i | 0 <= i < |steps| :: |states[i].history| > 0 && PatchedNext(states[i], states[i + 1], steps[i])
  }

  // "b" is finished before anyone asks for "a"; the cache keeps showing "b" as it was, and "a" as it is.
  ghost function Scene(t: nat): Cluster
  {
    if t == 0 then map["a" := Pod(0, 0, map[]), "b" := Pod(0, 0, WAITING)]
    else if t == 1 then map["a" := Pod(0, 0, map[]), "b" := Pod(0, 1, DONE)]
    else if t == 2 then map["a" := Pod(0, 2, REQUESTED), "b" := Pod(0, 1, DONE)]
    else if t == 3 then map["a" := Pod(0, 3, WAITING), "b" := Pod(0, 1, DONE)]
    else map["a" := Pod(0, 4, DONE), "b" := Pod(0, 1, DONE)]
  }

  /** What the cache shows while the state is `t`. */
  ghost function Shown(t: nat): Cluster
    requires t == 0 || t == 2 || t == 3
  {
    BesideB(Scene(t)["a"])
  }

  ghost function Scenes(t: nat): seq<Cluster>
  {
    if t == 0 then [Scene(0)] else Scenes(t - 1) + [Scene(t)]
  }

  lemma {:induction false} ScenesAt(t: nat, i: nat)
    requires i <= t
    ensures |Scenes(t)| == t + 1 && Scenes(t)[i] == Scene(i)
  {
    if t > 0 {
      ScenesAt(t - 1, if i < t then i else t - 1);
    }
  }

  /** What a pass plans that reads what is shown. */
  lemma ShownPlan(t: nat)
    requires t == 0 || t == 2 || t == 3
    ensures Plan(View(Shown(t)), "")
         == if t == 0 then map["b" := Finished] else if t == 2 then map["a" := Acknowledged] else map["a" := Finished]
  {
    ViewBesideB(Scene(t)["a"]);
    hide Plan, View, BesideWaiting;
    if t == 0 {
      PlanWhileUnasked();
    } else if t == 2 {
      PlanWhenAsked();
    } else {
      PlanWhileBothWait();
    }
  }

  lemma ShownKeys(t: nat, n: string)
    requires (t == 0 && n == "b") || (t == 2 && n == "a") || (t == 3 && n == "a")
    ensures Plan(View(Shown(t)), "").Keys == {n}
  {
    ShownPlan(t);
    hide Plan, View, Shown;
  }

  lemma ShownPods(t: nat)
    requires t == 0 || t == 2 || t == 3
    ensures forall n :: n in Shown(t) <==> n == "a" || n == "b"
    ensures Shown(t)["a"] == Scene(t)["a"] && Shown(t)["b"] == Scene(0)["b"]
    ensures Shown(t)["a"].version == t && Shown(t)["b"].version == 0
    ensures forall n :: n in Scene(0) <==> n == "a" || n == "b"
    ensures "a" in Scene(t)
  {
  }

  lemma PatchworkOfTwo(h: seq<Cluster>, before: Cluster, view: Cluster, t: nat)
    requires t < |h| && "a" in h[t] && forall n :: n in h[0] <==> n == "a" || n == "b"
    requires (forall n :: n in view <==> n == "a" || n == "b") && view["a"] == h[t]["a"] && view["b"] == h[0]["b"]
    requires forall n | n in view && n in before :: before[n].version <= view[n].version
    ensures Patchwork(h, before, view)
  {
    assert SeenOnce(h, view, "a") && SeenOnce(h, view, "b");
    assert forall n | n !in view :: n !in h[0];
  }

  lemma ShownIsPatchwork(t: nat, before: nat)
    requires before <= t && (before == 0 || before == 2) && (t == 0 || t == 2 || t == 3)
    ensures Patchwork(Scenes(t), Shown(before), Shown(t))
  {
    ScenesAt(t, 0);
    ScenesAt(t, t);
    ShownPods(t);
    ShownPods(before);
    hide Scenes, Scene, Shown, Patchwork;
    PatchworkOfTwo(Scenes(t), Shown(before), Shown(t), t);
  }

  lemma ShownRead(t: nat, before: nat, n: string)
    requires (t == 0 && before == 0 && n == "b") || (t == 2 && before == 0 && n == "a") || (t == 3 && before == 2 && n == "a")
    ensures |Scenes(t)| > 0
    ensures PatchedNext(Patched(Scenes(t), Shown(before), Idle), Patched(Scenes(t), Shown(t), Running("", {n})), BeginPass(""))
  {
    ScenesAt(t, 0);
    ShownKeys(t, n);
    ShownIsPatchwork(t, before);
    ReadTaken(Scenes(t), Shown(before), Shown(t), {n});
  }

  lemma ReadTaken(h: seq<Cluster>, before: Cluster, view: Cluster, pending: set<string>)
    requires |h| > 0 && Patchwork(h, before, view) && Plan(View(view), "").Keys == pending
    ensures PatchedNext(Patched(h, before, Idle), Patched(h, view, Running("", pending)), BeginPass(""))
  {
    hide Patchwork, Plan, View;
  }

  lemma SceneChanges(t: nat, n: string)
    requires (t == 0 && n == "b") || (t == 2 && n == "a") || (t == 3 && n == "a")
    ensures n in Scene(t) && n in Shown(t) && n in Scene(t + 1) && Scene(t)[n].version == Shown(t)[n].version
    ensures Scene(t + 1)[n] == Shown(t)[n].(version := t + 1,
              annotations := Updated(Shown(t)[n].annotations, if t == 2 then Acknowledged else Finished, ""))
    ensures OnlyChanges(Scene(t), Scene(t + 1), n)
  {
    assert Updated(REQUESTED, Acknowledged, "") == WAITING && Updated(WAITING, Finished, "") == DONE;
  }

  lemma ShownWrite(t: nat, n: string)
    requires (t == 0 && n == "b") || (t == 2 && n == "a") || (t == 3 && n == "a")
    ensures |Scenes(t)| > 0
    ensures PatchedNext(Patched(Scenes(t), Shown(t), Running("", {n})), Patched(Scenes(t + 1), Shown(t), Running("", {})),
                        Write(n, ""))
  {
    ScenesAt(t, t);
    ScenesGrow(t);
    ShownPlan(t);
    SceneChanges(t, n);
    hide Plan, View, Scenes, Shown, Scene, OnlyChanges, Updated, PatchedNext;
    HistoryGrows(Patched(Scenes(t), Shown(t), Running("", {n})), Scene(t + 1), Write(n, ""));
    assert {n} - {n} == {};
  }

  lemma ScenesGrow(t: nat)
    ensures Scenes(t + 1) == Scenes(t) + [Scene(t + 1)]
  {
  }

  lemma SomeoneAsks()
    ensures |Scenes(1)| > 0
    ensures PatchedNext(Patched(Scenes(1), Shown(0), Idle), Patched(Scenes(2), Shown(0), Idle), Foreign("a"))
  {
    ScenesAt(1, 1);
    ScenesAt(2, 2);
    assert Scenes(2) == Scenes(1) + [Scene(2)];
    hide Scenes;
    assert OnlyChanges(Scene(1), Scene(2), "a");
  }

  ghost function PatchedState(i: nat): Patched
  {
    if i == 0 then Patched(Scenes(0), Shown(0), Idle)
    else if i == 1 then Patched(Scenes(0), Shown(0), Running("", {"b"}))
    else if i == 2 then Patched(Scenes(1), Shown(0), Running("", {}))
    else if i == 3 then Patched(Scenes(1), Shown(0), Idle)
    else if i == 4 then Patched(Scenes(2), Shown(0), Idle)
    else if i == 5 then Patched(Scenes(2), Shown(2), Running("", {"a"}))
    else if i == 6 then Patched(Scenes(3), Shown(2), Running("", {}))
    else if i == 7 then Patched(Scenes(3), Shown(2), Idle)
    else if i == 8 then Patched(Scenes(3), Shown(3), Running("", {"a"}))
    else Patched(Scenes(4), Shown(3), Running("", {}))
  }

  ghost function PatchedStep(i: nat): Step
  {
    if i == 0 || i == 4 || i == 7 then BeginPass("")
    else if i == 1 then Write("b", "")
    else if i == 3 then Foreign("a")
    else if i == 5 || i == 8 then Write("a", "")
    else EndPass
  }

  lemma PatchedUnfolds(i: nat)
    requires i < 9
    ensures |PatchedState(i).history| > 0 && PatchedNext(PatchedState(i), PatchedState(i + 1), PatchedStep(i))
  {
    if i == 0 { ShownRead(0, 0, "b"); }
    else if i == 1 { ShownWrite(0, "b"); }
    else if i == 2 { PatchedEnds(1, 0); }
    else if i == 3 { SomeoneAsks(); }
    else if i == 4 { ShownRead(2, 0, "a"); }
    else if i == 5 { ShownWrite(2, "a"); }
    else if i == 6 { PatchedEnds(3, 2); }
    else if i == 7 { ShownRead(3, 2, "a"); }
    else { ShownWrite(3, "a"); }
    hide PatchedNext, Scenes, Shown;
  }

  lemma PatchedEnds(t: nat, k: nat)
    requires k == 0 || k == 2
    ensures |Scenes(t)| > 0
    ensures PatchedNext(Patched(Scenes(t), Shown(k), Running("", {})), Patched(Scenes(t), Shown(k), Idle), EndPass)
  {
    ScenesAt(t, 0);
  }

  lemma SceneFrame()
    ensures |Scenes(0)| == 1 && Initial(System(Scenes(0), 0, Idle)) && Shown(0) == Scenes(0)[0]
    ensures |Scenes(4)| == 5 && !AtMostOneFinished(Scenes(4)[4])
  {
    ScenesAt(0, 0);
    ScenesAt(4, 4);
    hide Scenes;
    assert "a" in Scene(4) && "b" in Scene(4);
  }

  /** If the cache may be behind by different amounts for different Pods, two tablets can end up finished, even though
      passes are serial and no Pod is ever seen older than before. */
  lemma PatchworkBreaksSafety() returns (states: seq<Patched>, steps: seq<Step>)
    ensures PatchedRun(states, steps)
    ensures var h := states[|steps|].history; |h| > 0 && !AtMostOneFinished(h[|h| - 1])
  {
    hide Scenes, Shown, AtMostOneFinished, PatchedStep, Initial, PatchedNext;
    states, steps := seq(10, (i: nat) => PatchedState(i)), seq(9, (i: nat) => PatchedStep(i));
    SceneFrame();
    assert states[0] == Patched(Scenes(0), Shown(0), Idle);
    assert states[9] == Patched(Scenes(4), Shown(3), Running("", {}));
    hide PatchedState;
    forall i | 0 <= i < |steps|
      ensures |states[i].history| > 0 && PatchedNext(states[i], states[i + 1], steps[i])
    {
      PatchedUnfolds(i);
    }
  }
}
