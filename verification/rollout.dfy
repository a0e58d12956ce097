/** The rollout policy of a shard: releases the scheduled tablets of a cascading rollout one by one. */
module Rollout {
  import opened Annotations
  import opened Drain
  import opened RolloutAnnotations
  import opened Wrappers

  /** `primaryEligible` says that the Pod is labelled as a tablet of a replica or external primary pool. */
  datatype Pod = Pod(annotations: Annotations, primaryEligible: bool)

  /** What one pass reads: the shard, the aliases of its desired tablets and which of these are available, its
      tablet Pods by alias, and the alias of the current primary. */
  datatype Shard = Shard(cascading: bool, tablets: seq<string>, available: set<string>, pods: map<string, Pod>,
                         primary: string, primaryEligibleTablets: nat)

  datatype Action = Wait | Release(tablet: string) | DeletePod(tablet: string) | Uncascade

  ghost predicate IsScheduled(s: Shard, t: string)
  {
    t in s.tablets && t in s.pods && Scheduled(s.pods[t].annotations)
  }

  ghost predicate IsReleased(s: Shard, t: string)
  {
    t in s.tablets && t in s.pods && Released(s.pods[t].annotations)
  }

  ghost predicate IsDrained(s: Shard, t: string)
  {
    IsScheduled(s, t) && IsFinished(s.pods[t].annotations)
  }

  // ------------------------------------------------------------ one pass

  /** The tablet that may go next: a drained one if there is any, the primary only after all others. */
  ghost predicate MayBeNext(s: Shard, next: Option<string>)
  {
    match next
    case None => forall t :: !IsScheduled(s, t)
    case Some(t) =>
      && IsScheduled(s, t)
      && ((exists d :: IsDrained(s, d)) ==>
            exists i | 0 <= i < |s.tablets| :: s.tablets[i] == t && IsDrained(s, t)
              && forall j | 0 <= j < i :: !IsDrained(s, s.tablets[j]))
      && ((forall d :: !IsDrained(s, d)) && t == s.primary ==> forall u :: IsScheduled(s, u) ==> u == s.primary)
  }

  /** The second loop walks a Go map, in any order. */
  method GetNextScheduledTablet(s: Shard) returns (next: Option<string>)
    requires forall t | t in s.tablets :: t in s.pods
    ensures MayBeNext(s, next)
  {
    var scheduledTablets: set<string> := {};
    for i := 0 to |s.tablets|
      invariant forall t :: t in scheduledTablets <==> IsScheduled(s, t) && t in s.tablets[..i]
      invariant forall j | 0 <= j < i :: !IsDrained(s, s.tablets[j])
    {
      var t := s.tablets[i];
      assert t in s.tablets;
      var pod := s.pods[t];
      if Scheduled(pod.annotations) {
        scheduledTablets := scheduledTablets + {t};
        if IsFinished(pod.annotations) {
          assert IsDrained(s, t);
          return Some(t);
        }
      }
    }
    assert s.tablets[..|s.tablets|] == s.tablets;

    var todo := scheduledTablets;
    while todo != {}
      invariant todo <= scheduledTablets
      invariant forall t | t in scheduledTablets && t !in todo :: t == s.primary
    {
      var t :| t in todo;
      todo := todo - {t};
      if t != s.primary {
        return Some(t);
      }
    }
    if s.primary in scheduledTablets {
      return Some(s.primary);
    }
    return None;
  }

  /** No desired tablet is unavailable, missing, or already released. */
  ghost predicate Ready(s: Shard)
  {
    forall t | t in s.tablets :: t in s.available && t in s.pods && !Released(s.pods[t].annotations)
  }

  /** A lone primary cannot be drained, so it is deleted instead of being released. */
  predicate LonePrimary(s: Shard, t: string)
    requires t in s.pods
  {
    s.primaryEligibleTablets < 2 && s.pods[t].primaryEligible
  }

  /** What a pass may do. */
  ghost predicate Permitted(s: Shard, a: Action)
  {
    if !s.cascading || !Ready(s) then a == Wait
    else match a
      case Wait => false
      case Uncascade => MayBeNext(s, None)
      case Release(t) => MayBeNext(s, Some(t)) && !LonePrimary(s, t)
      case DeletePod(t) => MayBeNext(s, Some(t)) && LonePrimary(s, t)
  }

  method ReconcileRollout(s: Shard) returns (a: Action)
    ensures Permitted(s, a)
    // It waits exactly if there is no rollout, or a desired tablet is unavailable, missing or being rolled out.
    ensures a != Wait <==> && s.cascading
                           && forall t | t in s.tablets ::
                                t in s.available && t in s.pods && RolloutReleased !in s.pods[t].annotations
    ensures a == Uncascade ==> forall t | t in s.tablets :: RolloutScheduled !in s.pods[t].annotations
    // It acts on a scheduled tablet, on a drained one if there is any, and deletes exactly lone primaries.
    ensures a.Release? || a.DeletePod? ==>
              && a.tablet in s.tablets && RolloutScheduled in s.pods[a.tablet].annotations
              && (a.DeletePod? <==> s.primaryEligibleTablets < 2 && s.pods[a.tablet].primaryEligible)
              && (DrainFinished !in s.pods[a.tablet].annotations ==>
                    forall t | t in s.tablets && RolloutScheduled in s.pods[t].annotations ::
                      DrainFinished !in s.pods[t].annotations && (a.tablet == s.primary ==> t == s.primary))
  {
    if !s.cascading {
      return Wait;
    }
    for i := 0 to |s.tablets|
      invariant forall j | 0 <= j < i ::
                  var t := s.tablets[j];
                  t in s.available && t in s.pods && !Released(s.pods[t].annotations)
    {
      var t := s.tablets[i];
      assert t in s.tablets;
      if t !in s.available || t !in s.pods || Released(s.pods[t].annotations) {
        assert t in s.tablets;
        return Wait;
      }
    }
    var next := GetNextScheduledTablet(s);
    assert forall t | t in s.tablets :: (RolloutScheduled in s.pods[t].annotations <==> IsScheduled(s, t))
                                        && (IsScheduled(s, t) && DrainFinished in s.pods[t].annotations ==> IsDrained(s, t));
    if next.None? {
      return Uncascade;
    }
    if LonePrimary(s, next.value) {
      return DeletePod(next.value);
    }
    return Release(next.value);
  }

  /** A corollary of what a pass may do: the rollout is declared complete exactly when it is in progress, not held up, and nothing is scheduled. */
  lemma UncascadesWhenDone(s: Shard)
    ensures Permitted(s, Uncascade) <==> s.cascading && Ready(s) && forall t :: !IsScheduled(s, t)
  {
  }

  /** Another corollary: the primary is released or deleted only when it is already drained, or no other tablet is scheduled. */
  lemma PrimaryLast(s: Shard, a: Action, t: string)
    requires Permitted(s, a) && (a == Release(s.primary) || a == DeletePod(s.primary))
    requires IsScheduled(s, t) && t != s.primary
    ensures IsDrained(s, s.primary)
  {
  }

  // ------------------------------------------------------------ a rollout

  datatype Step =
    | Pass(action: Action)                                  // the rollout policy acts
    | Recreating(tablet: string)                            // the reconciler deletes a released Pod
    | Creating(tablet: string, pod: Pod)                    // the reconciler creates a missing Pod
    | Updated(tablet: string)                               // the reconciler has updated a released Pod in place
    | Annotate(tablet: string, annotations: Annotations)    // any change but of the rollout annotations
    | Observe(available: set<string>)                       // the health of the tablets changes
    | Gone(tablet: string)                                  // anyone deletes a Pod

  ghost predicate Enabled(s: Shard, step: Step)
  {
    match step
    case Pass(a) => Permitted(s, a)
    case Recreating(t) => t in s.pods && Released(s.pods[t].annotations)
    case Creating(t, pod) => t !in s.pods && !Scheduled(pod.annotations) && !Released(pod.annotations)
    case Updated(t) => t in s.pods && Released(s.pods[t].annotations)
    case Annotate(t, ann) =>
      && t in s.pods
      && (Scheduled(ann) <==> Scheduled(s.pods[t].annotations))
      && (Released(ann) <==> Released(s.pods[t].annotations))
    case Observe(available) => true
    case Gone(t) => true
  }

  function Next(s: Shard, step: Step): Shard
  {
    match step
    case Pass(Wait) => s
    case Pass(Release(t)) =>
      if t !in s.pods then s
      else s.(pods := s.pods[t := s.pods[t].(annotations := WithRelease(s.pods[t].annotations))])
    case Pass(DeletePod(t)) => s.(pods := s.pods - {t})
    case Pass(Uncascade) => s.(cascading := false)
    case Recreating(t) => s.(pods := s.pods - {t})
    case Creating(t, pod) => s.(pods := s.pods[t := pod])
    case Updated(t) =>
      if t !in s.pods then s
      else s.(pods := s.pods[t := s.pods[t].(annotations := WithoutSchedule(s.pods[t].annotations))])
    case Annotate(t, ann) => if t !in s.pods then s else s.(pods := s.pods[t := s.pods[t].(annotations := ann)])
    case Observe(available) => s.(available := available)
    case Gone(t) => s.(pods := s.pods - {t})
  }

  /** At most one desired tablet is released, and what is released is scheduled. */
  ghost predicate Inv(s: Shard)
  {
    && (forall t, u | IsReleased(s, t) && IsReleased(s, u) :: t == u)
    && (forall t | IsReleased(s, t) :: IsScheduled(s, t))
  }

  /** What is left to be done for one tablet. */
  ghost function Remaining(s: Shard, t: string): nat
  {
    if t !in s.pods || !Scheduled(s.pods[t].annotations) then 0
    else if Released(s.pods[t].annotations) then 1
    else 2
  }

  ghost function Total(s: Shard, tablets: seq<string>): nat
  {
    if tablets == [] then 0 else Remaining(s, tablets[0]) + Total(s, tablets[1..])
  }

  ghost function Work(s: Shard): nat
  {
    Total(s, s.tablets) + if s.cascading then 1 else 0
  }

  lemma {:induction false} TotalShrinks(s: Shard, s': Shard, tablets: seq<string>)
    requires forall t | t in tablets :: Remaining(s', t) <= Remaining(s, t)
    ensures Total(s', tablets) <= Total(s, tablets)
    ensures (exists t | t in tablets :: Remaining(s', t) < Remaining(s, t)) ==> Total(s', tablets) < Total(s, tablets)
  {
    if tablets != [] {
      assert forall t | t in tablets[1..] :: t in tablets;
      assert tablets == [tablets[0]] + tablets[1..];
      TotalShrinks(s, s', tablets[1..]);
    }
  }

  lemma RemainingStep(s: Shard, step: Step, t: string)
    requires Inv(s) && Enabled(s, step) && t in s.tablets
    ensures Remaining(Next(s, step), t) <= Remaining(s, t)
  {
  }

  lemma ReleasedStep(s: Shard, step: Step, t: string)
    requires Inv(s) && Enabled(s, step) && IsReleased(Next(s, step), t)
    ensures IsScheduled(Next(s, step), t)
    ensures IsReleased(s, t) || (step == Pass(Release(t)) && forall u :: !IsReleased(s, u))
  {
    assert IsReleased(s, t) ==> IsScheduled(s, t);
  }

  lemma StepKeepsInv(s: Shard, step: Step)
    requires Inv(s) && Enabled(s, step)
    ensures Inv(Next(s, step)) && Next(s, step).tablets == s.tablets
    ensures Work(Next(s, step)) <= Work(s)
    ensures step.Pass? && step.action != Wait ==> Work(Next(s, step)) < Work(s)
  {
    var s' := Next(s, step);
    forall t | t in s.tablets ensures Remaining(s', t) <= Remaining(s, t) {
      RemainingStep(s, step, t);
    }
    TotalShrinks(s, s', s.tablets);
    if step.Pass? && (step.action.Release? || step.action.DeletePod?) {
      var t := step.action.tablet;
      assert t in s.tablets && Remaining(s', t) < Remaining(s, t);
    }
    forall t | IsReleased(s', t)
      ensures IsScheduled(s', t)
      ensures IsReleased(s, t) || (step == Pass(Release(t)) && forall u :: !IsReleased(s, u))
    {
      ReleasedStep(s, step, t);
    }
    hide Next, Enabled, IsReleased, IsScheduled;
  }

  ghost predicate Run(states: seq<Shard>, steps: seq<Step>)
  {
    && |states| == |steps| + 1
    && (forall t :: !IsReleased(states[0], t))
    && forall i | 0 <= i < |steps| :: Enabled(states[i], steps[i]) && states[i + 1] == Next(states[i], steps[i])
  }

  /** How often the policy acted in the first `n` steps. */
  ghost function Actions(steps: seq<Step>, n: nat): nat
    requires n <= |steps|
  {
    if n == 0 then 0
    else Actions(steps, n - 1) + if steps[n - 1].Pass? && steps[n - 1].action != Wait then 1 else 0
  }

  /** In every run with up-to-date reads, a fixed primary and no new changes: at most one desired tablet is
      released at any time, and the policy acts at most twice per scheduled tablet (to release it, and once more
      to finish), so it terminates. */
  lemma {:induction false} OneReleaseAtATime(states: seq<Shard>, steps: seq<Step>, i: nat)
    requires Run(states, steps) && i < |states|
    ensures Inv(states[i])
    ensures Actions(steps, i) + Work(states[i]) <= Work(states[0])
  {
    if i > 0 {
      OneReleaseAtATime(states, steps, i - 1);
      hide Inv, Enabled, Next, Work;
      StepKeepsInv(states[i - 1], steps[i - 1]);
    }
  }
}
