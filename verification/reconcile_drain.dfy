/** One pass of the drain controller over the cached Pods of a shard (keyed by tablet alias). */
module ReconcileDrain {
  import opened Annotations
  import opened Drain
  import opened StringOrder

  type Pods = map<string, Annotations>

  /** A Pod whose drain request was withdrawn after the controller had already reacted to it. */
  predicate Aborted(ann: Annotations)
  {
    !Started(ann) && (IsAcknowledged(ann) || IsFinished(ann))
  }

  ghost function AbortedPods(pods: Pods): set<string>
  {
    set n | n in pods && Aborted(pods[n])
  }

  ghost function Drains(pods: Pods): map<string, State>
  {
    map n | n in pods && Started(pods[n]) :: GetState(pods[n]).0
  }

  /** The states the pass tries to move Pods to. */
  ghost function Plan(pods: Pods, primary: string): map<string, State>
  {
    if AbortedPods(pods) != {} || Drains(pods) == map[] then map n | n in AbortedPods(pods) :: NotDraining
    else WithoutFinish(Transitions(Drains(pods)), primary)
  }

  ghost function WithoutFinish(transitions: map<string, State>, primary: string): map<string, State>
  {
    map n | n in transitions && !(transitions[n].Finished? && n == primary) :: transitions[n]
  }

  /** Whether the pass goes on to look for a new primary. */
  ghost predicate WantsReparent(pods: Pods, primary: string)
  {
    var drains := Drains(pods);
    && AbortedPods(pods) == {}
    && primary in drains
    && (drains[primary].Finished? || (primary in Transitions(drains) && Transitions(drains)[primary].Finished?))
  }

  /** The annotations after `updateDrainStatus` with target `s`. */
  function Updated(ann: Annotations, s: State, now: string): Annotations
    requires !s.Draining?
  {
    match s
    case Finished => Added(ann, DrainFinished, now)
    case Acknowledged => Added(ann, DrainAcknowledged, now)
    case NotDraining => ann - {DrainFinished, DrainAcknowledged}
  }

  /** Returns whether the Pod has to be sent to the server. */
  method UpdateDrainStatus(pod: Object, drainStatus: State, now: string) returns (hasUpdated: bool)
    requires !drainStatus.Draining?
    modifies pod
    ensures pod.annotations == Updated(old(pod.annotations), drainStatus, now)
    ensures match drainStatus
            case Finished => Sets(old(pod.annotations), pod.annotations, DrainFinished, now)
            case Acknowledged => Sets(old(pod.annotations), pod.annotations, DrainAcknowledged, now)
            case NotDraining => pod.annotations == old(pod.annotations) - {DrainFinished, DrainAcknowledged}
    ensures hasUpdated <==> pod.annotations != old(pod.annotations)
  {
    hasUpdated := false;
    match drainStatus
    case Finished =>
      if !IsFinished(pod.annotations) {
        Finish(pod, now);
        hasUpdated := true;
      }
    case Acknowledged =>
      if !IsAcknowledged(pod.annotations) {
        Acknowledge(pod, now);
        hasUpdated := true;
      }
    case NotDraining =>
      if IsFinished(pod.annotations) {
        Unfinish(pod);
        assert DrainFinished in old(pod.annotations) && DrainFinished !in pod.annotations;
        hasUpdated := true;
      }
      if IsAcknowledged(pod.annotations) {
        Unacknowledge(pod);
        assert DrainAcknowledged in old(pod.annotations) && DrainAcknowledged !in pod.annotations;
        hasUpdated := true;
      }
  }

  ghost function Snapshot(pods: map<string, Object>): Pods
    reads pods.Values
  {
    map n | n in pods :: pods[n].annotations
  }

  /** Distinct aliases stand for distinct Pod objects. */
  ghost predicate Distinct(pods: map<string, Object>)
  {
    forall m, n | m in pods && n in pods && m != n :: pods[m] != pods[n]
  }

  /** The cached Pods are what they were, except that those in `sent` now look as they were sent. */
  ghost predicate After(pods: map<string, Object>, before: Pods, sent: Pods)
    reads pods.Values
  {
    && pods.Keys == before.Keys
    && forall n | n in pods :: pods[n].annotations == if n in sent then sent[n] else before[n]
  }

  /** Updates one Pod in the cache and, if that changed it, hands it to the API client. */
  method Send(pods: map<string, Object>, alias: string, target: State, now: string, ghost before: Pods, sent: Pods)
    returns (sentNow: Pods)
    requires Distinct(pods) && After(pods, before, sent)
    requires alias in pods && alias !in sent && !target.Draining?
    modifies pods[alias]
    ensures After(pods, before, sentNow)
    ensures sentNow == if Updated(before[alias], target, now) != before[alias]
                       then sent[alias := Updated(before[alias], target, now)] else sent
  {
    sentNow := sent;
    var hasUpdated := UpdateDrainStatus(pods[alias], target, now);
    if hasUpdated {
      sentNow := sent[alias := pods[alias].annotations];
    }
  }

  lemma MoveOne(todo: set<string>, seen: set<string>, n: string)
    requires n in todo && todo !! seen
    ensures (todo - {n}) + (seen + {n}) == todo + seen
    ensures (todo - {n}) !! (seen + {n})
  {
  }

  /** What phase 2 knows once it has visited the Pods in `seen`. */
  ghost predicate Loaded(pods: Pods, seen: set<string>, drains: map<string, State>, aborting: bool, sent: Pods, now: string)
  {
    && drains == Drains(pods) - (pods.Keys - seen)
    && (aborting <==> AbortedPods(pods) * seen != {})
    && sent.Keys == AbortedPods(pods) * seen
    && forall n | n in sent :: sent[n] == Updated(pods[n], NotDraining, now)
  }

  lemma LoadedStep(pods: Pods, seen: set<string>, drains: map<string, State>, aborting: bool, sent: Pods, now: string,
                   n: string)
    requires seen <= pods.Keys && n in pods && n !in seen
    requires Loaded(pods, seen, drains, aborting, sent, now)
    ensures Started(pods[n]) ==>
              Loaded(pods, seen + {n}, drains[n := GetState(pods[n]).0], aborting, sent, now)
    ensures Updated(pods[n], NotDraining, now) != pods[n] <==> IsAcknowledged(pods[n]) || IsFinished(pods[n])
    ensures Aborted(pods[n]) ==>
              Loaded(pods, seen + {n}, drains, true, sent[n := Updated(pods[n], NotDraining, now)], now)
    ensures !Started(pods[n]) && !Aborted(pods[n]) ==> Loaded(pods, seen + {n}, drains, aborting, sent, now)
  {
    assert DrainFinished !in Updated(pods[n], NotDraining, now) && DrainAcknowledged !in Updated(pods[n], NotDraining, now);
    assert Updated(pods[n], NotDraining, now) != pods[n] <==> IsAcknowledged(pods[n]) || IsFinished(pods[n]);
    hide Updated, GetState;
    if Aborted(pods[n]) {
      assert n in AbortedPods(pods) * (seen + {n});
      assert AbortedPods(pods) * (seen + {n}) == AbortedPods(pods) * seen + {n};
    } else {
      assert AbortedPods(pods) * (seen + {n}) == AbortedPods(pods) * seen;
    }
  }

  /** Phase 2: read the drain states and clear the annotations of aborted drains. */
  method LoadDrains(pods: map<string, Object>, now: string)
    returns (drains: map<string, State>, abortingDrain: bool, sent: Pods)
    requires Distinct(pods)
    modifies pods.Values
    ensures Loaded(old(Snapshot(pods)), pods.Keys, drains, abortingDrain, sent, now)
    ensures After(pods, old(Snapshot(pods)), sent)
  {
    ghost var before := Snapshot(pods);
    ghost var seen := {};
    abortingDrain, drains, sent := false, map[], map[];
    var unseen := pods.Keys;
    while unseen != {}
      invariant unseen + seen == pods.Keys && unseen !! seen
      invariant Loaded(before, seen, drains, abortingDrain, sent, now)
      invariant After(pods, before, sent)
    {
      var alias :| alias in unseen;
      var pod := pods[alias];
      LoadedStep(before, seen, drains, abortingDrain, sent, now, alias);
      MoveOne(unseen, seen, alias);
      unseen, seen := unseen - {alias}, seen + {alias};
      assert pod.annotations == before[alias];
      if Started(pod.annotations) {
        drains := drains[alias := GetState(pod.annotations).0];
      } else {
        if IsAcknowledged(pod.annotations) || IsFinished(pod.annotations) {
          abortingDrain := true;
        }
        sent := Send(pods, alias, NotDraining, now, before, sent);
      }
    }
  }

  /** What phase 3 has sent once it has visited the transitions in `seen`. */
  ghost predicate Applied(pods: Pods, seen: set<string>, transitions: map<string, State>, primary: string,
                          acknowledged: bool, sent: Pods, now: string)
    requires transitions.Keys <= pods.Keys && forall n | n in transitions :: !transitions[n].Draining?
  {
    && (acknowledged <==> exists n :: n in seen && n in transitions && transitions[n].Acknowledged?)
    && sent.Keys == WithoutFinish(transitions, primary).Keys * seen
    && forall n | n in sent :: sent[n] == Updated(pods[n], transitions[n], now)
  }

  lemma AppliedStep(pods: Pods, seen: set<string>, transitions: map<string, State>, primary: string,
                    acknowledged: bool, sent: Pods, now: string, n: string)
    requires transitions.Keys <= pods.Keys && forall m | m in transitions :: !transitions[m].Draining?
    requires n in transitions && n !in seen && Applied(pods, seen, transitions, primary, acknowledged, sent, now)
    ensures transitions[n].Finished? && n == primary ==>
              Applied(pods, seen + {n}, transitions, primary, acknowledged, sent, now)
    ensures !(transitions[n].Finished? && n == primary) ==>
              Applied(pods, seen + {n}, transitions, primary, acknowledged || transitions[n].Acknowledged?,
                      sent[n := Updated(pods[n], transitions[n], now)], now)
  {
    assert n in seen + {n};
  }

  /** Phase 3: send the transitions of the state machine, except a finish of the primary. */
  method ApplyTransitions(pods: map<string, Object>, drains: map<string, State>, primary: string, now: string)
    returns (transitions: map<string, State>, acknowledgedDrain: bool, sent: Pods)
    requires Distinct(pods)
    requires drains == Drains(Snapshot(pods))
    modifies pods.Values
    ensures transitions == Transitions(drains)
    ensures transitions.Keys <= pods.Keys && forall n | n in transitions :: !transitions[n].Draining?
    ensures Applied(old(Snapshot(pods)), transitions.Keys, transitions, primary, acknowledgedDrain, sent, now)
    ensures After(pods, old(Snapshot(pods)), sent)
  {
    ghost var before := Snapshot(pods);
    transitions := StateTransitions(drains);
    acknowledgedDrain, sent := false, map[];
    forall n | n in transitions
      ensures n in before && !transitions[n].Draining? && Updated(before[n], transitions[n], now) != before[n]
    {
      TransitionChanges(before, n, now);
    }
    ghost var seen := {};
    var todo := transitions.Keys;
    while todo != {}
      invariant todo + seen == transitions.Keys && todo !! seen
      invariant Applied(before, seen, transitions, primary, acknowledgedDrain, sent, now)
      invariant After(pods, before, sent)
    {
      var alias :| alias in todo;
      AppliedStep(before, seen, transitions, primary, acknowledgedDrain, sent, now, alias);
      MoveOne(todo, seen, alias);
      todo, seen := todo - {alias}, seen + {alias};
      if transitions[alias] == Finished && alias == primary {
        continue;
      }
      if transitions[alias] == Acknowledged {
        acknowledgedDrain := true;
      }
      sent := Send(pods, alias, transitions[alias], now, before, sent);
    }
  }

  /** Exactly the planned writes were sent. */
  ghost predicate Executed(pods: Pods, primary: string, sent: Pods, now: string)
  {
    && sent.Keys == Plan(pods, primary).Keys
    && forall n | n in sent ::
         n in pods && !Plan(pods, primary)[n].Draining? && sent[n] == Updated(pods[n], Plan(pods, primary)[n], now)
  }

  lemma ReparentDecision(pods: Pods, primary: string)
    requires Drains(pods) != map[] && AbortedPods(pods) == {}
    ensures var drains, transitions := Drains(pods), Transitions(Drains(pods));
            var primaryFinished := primary in drains && drains[primary].Finished?;
            var finishingPrimary := primary in transitions && transitions[primary].Finished?;
            && (finishingPrimary ==> primary in drains && forall n | n in transitions :: !transitions[n].Acknowledged?)
            && (WantsReparent(pods, primary) <==> primaryFinished || finishingPrimary)
  {
    forall n | n in Transitions(Drains(pods)) {
      TransitionsSound(Drains(pods), n);
    }
  }

  /** Both ways through the pass send exactly the plan. */
  lemma LoadedIsPlan(pods: Pods, primary: string, aborting: bool, sent: Pods, now: string)
    requires Loaded(pods, pods.Keys, Drains(pods), aborting, sent, now)
    requires Drains(pods) == map[] || aborting
    ensures Executed(pods, primary, sent, now) && !WantsReparent(pods, primary)
  {
    assert sent.Keys == AbortedPods(pods);
  }

  lemma AppliedIsPlan(pods: Pods, primary: string, acknowledged: bool, sent: Pods, now: string)
    requires Drains(pods) != map[] && AbortedPods(pods) == {}
    requires var transitions := Transitions(Drains(pods));
             && transitions.Keys <= pods.Keys
             && (forall n | n in transitions :: !transitions[n].Draining?)
             && Applied(pods, transitions.Keys, transitions, primary, acknowledged, sent, now)
    ensures Executed(pods, primary, sent, now)
  {
    assert sent.Keys == WithoutFinish(Transitions(Drains(pods)), primary).Keys;
  }

  /** Phases 2, 3 and 5. `sent` holds the objects passed to the API client, `reparent` tells whether a planned
      reparent is attempted. The loops walk Go maps, so their order is arbitrary. */
  method Pass(pods: map<string, Object>, primary: string, now: string)
    returns (sent: Pods, reparent: bool)
    requires Distinct(pods)
    modifies pods.Values
    ensures Executed(old(Snapshot(pods)), primary, sent, now)
    ensures After(pods, old(Snapshot(pods)), sent)
    ensures reparent <==> WantsReparent(old(Snapshot(pods)), primary)
  {
    ghost var before := Snapshot(pods);
    var drains, abortingDrain;
    drains, abortingDrain, sent := LoadDrains(pods, now);
    assert drains == Drains(before);
    assert abortingDrain <==> AbortedPods(before) != {};
    hide Loaded, AbortedPods, Plan, Transitions, Executed;
    reparent := false;
    if drains == map[] || abortingDrain {
      LoadedIsPlan(before, primary, abortingDrain, sent, now);
      return;
    }
    assert Snapshot(pods) == before;

    var transitions, acknowledgedDrain;
    transitions, acknowledgedDrain, sent := ApplyTransitions(pods, drains, primary, now);
    hide Applied;
    AppliedIsPlan(before, primary, acknowledgedDrain, sent, now);
    ReparentDecision(before, primary);
    var primaryFinished := primary in drains && drains[primary].Finished?;
    var finishingPrimary := primary in transitions && transitions[primary].Finished?;
    if acknowledgedDrain && !primaryFinished {
      return;
    }
    if !primaryFinished && !finishingPrimary {
      return;
    }
    reparent := true;
  }

  lemma TransitionChanges(pods: Pods, n: string, now: string)
    requires n in Transitions(Drains(pods))
    ensures n in pods && !Transitions(Drains(pods))[n].Draining?
    ensures Updated(pods[n], Transitions(Drains(pods))[n], now) != pods[n]
    ensures GetState(Updated(pods[n], Transitions(Drains(pods))[n], now)) == (Transitions(Drains(pods))[n], false)
  {
    var ann, target := pods[n], Transitions(Drains(pods))[n];
    TransitionsSound(Drains(pods), n);
    assert target.Finished? ==> DrainFinished in Updated(ann, target, now);
    assert target.Acknowledged? ==> DrainAcknowledged in Updated(ann, target, now);
  }

  /** `n` is the first in line: its drain is acknowledged, and no request is waiting for acknowledgement, finished, or
      before it. */
  ghost predicate FirstInLine(pods: Pods, n: string)
  {
    && n in pods && Started(pods[n]) && IsAcknowledged(pods[n]) && !IsFinished(pods[n])
    && forall m | m in pods && Started(pods[m]) :: IsAcknowledged(pods[m]) && !IsFinished(pods[m]) && Leq(n, m)
  }

  lemma LineOfDrains(pods: Pods, n: string)
    ensures FirstInLine(pods, n) <==> Quiet(Drains(pods)) && IsLeast(n, InState(Drains(pods), Acknowledged))
  {
    var drains := Drains(pods);
    if FirstInLine(pods, n) {
      assert n in InState(drains, Acknowledged);
    }
    if Quiet(drains) && IsLeast(n, InState(drains, Acknowledged)) {
      forall m | m in pods && Started(pods[m])
        ensures IsAcknowledged(pods[m]) && !IsFinished(pods[m]) && Leq(n, m)
      {
        assert m in drains && drains[m] == GetState(pods[m]).0;
        assert m in InState(drains, Acknowledged);
      }
    }
  }

  /** The plan in terms of the Pods. If a drain was aborted, exactly the aborted Pods are cleared. Otherwise exactly the
      new requests are acknowledged, the first in line is finished unless it is the primary, and a reparent is wanted
      exactly if the primary is draining and finished or first in line. */
  lemma PlanExactly(pods: Pods, primary: string)
    ensures var plan := Plan(pods, primary);
            if exists n :: n in pods && Aborted(pods[n]) then
              && (forall n :: n in plan <==> n in pods && !Started(pods[n]) && (IsAcknowledged(pods[n]) || IsFinished(pods[n])))
              && (forall n | n in plan :: plan[n] == NotDraining)
              && !WantsReparent(pods, primary)
            else
              && (forall n :: n in plan && plan[n] == Acknowledged
                              <==> n in pods && Started(pods[n]) && !IsAcknowledged(pods[n]) && !IsFinished(pods[n]))
              && (forall n :: n in plan && plan[n] == Finished <==> n != primary && FirstInLine(pods, n))
              && (forall n | n in plan :: plan[n] == Acknowledged || plan[n] == Finished)
              && (WantsReparent(pods, primary)
                  <==> primary in pods && Started(pods[primary])
                       && (IsFinished(pods[primary]) || FirstInLine(pods, primary)))
  {
    var drains := Drains(pods);
    if n :| n in pods && Aborted(pods[n]) {
      assert n in AbortedPods(pods);
    } else {
      assert AbortedPods(pods) == {};
      TransitionsAnswer(drains);
      forall n {
        LineOfDrains(pods, n);
      }
      assert forall n :: n in drains <==> n in pods && Started(pods[n]);
      hide Transitions, FirstInLine, IsLeast;
    }
  }

  /** A corollary of the plan: the tablet named as primary by the shard record is never marked finished. */
  lemma NeverFinishesPrimary(pods: Pods, primary: string)
    ensures primary in Plan(pods, primary) ==> !Plan(pods, primary)[primary].Finished?
  {
    if primary in Transitions(Drains(pods)) {
      TransitionsSound(Drains(pods), primary);
    }
  }

  /** Every planned write changes its Pod, so it is really sent, and it moves the Pod's state machine to the planned state. */
  lemma PlanReachesTarget(pods: Pods, primary: string, n: string, now: string)
    requires n in Plan(pods, primary)
    ensures n in pods && !Plan(pods, primary)[n].Draining?
    ensures Updated(pods[n], Plan(pods, primary)[n], now) != pods[n]
    ensures GetState(Updated(pods[n], Plan(pods, primary)[n], now)) == (Plan(pods, primary)[n], false)
  {
    var ann, target := pods[n], Plan(pods, primary)[n];
    if AbortedPods(pods) != {} || Drains(pods) == map[] {
      assert DrainFinished !in Updated(ann, target, now) && DrainAcknowledged !in Updated(ann, target, now);
    } else {
      TransitionChanges(pods, n, now);
    }
  }

  /** A reparent is attempted only for a primary that is already finished, or in a pass that writes nothing,
      while every drain is acknowledged, none is finished and the primary is the first in line. */
  lemma ReparentOnlyWhenSettled(pods: Pods, primary: string)
    requires WantsReparent(pods, primary)
    ensures || Drains(pods)[primary].Finished?
            || (&& Plan(pods, primary) == map[]
                && Quiet(Drains(pods))
                && IsLeast(primary, InState(Drains(pods), Acknowledged)))
  {
    if !Drains(pods)[primary].Finished? {
      TransitionsSound(Drains(pods), primary);
    }
  }
}
