/** Package drain: the annotations of a drain and the state machine that finishes one drain at a time. */
module Drain {
  import opened Annotations
  import opened StringOrder

  predicate Started(ann: Annotations) { DrainStarted in ann }

  predicate IsAcknowledged(ann: Annotations) { DrainAcknowledged in ann }

  predicate IsFinished(ann: Annotations) { DrainFinished in ann }

  /** Adding an annotation that is already present has no effect, not even on its value. */
  function Added(ann: Annotations, key: Key, message: string): Annotations
  {
    if key in ann then ann else ann[key := message]
  }

  /** The key is there afterwards, with its old value if it had one, and no other annotation has changed. */
  ghost predicate Sets(before: Annotations, after: Annotations, key: Key, message: string)
  {
    && after.Keys == before.Keys + {key}
    && (forall k | k in before :: after[k] == before[k])
    && (key !in before ==> after[key] == message)
  }

  method Start(obj: Object, message: string)
    modifies obj
    ensures obj.annotations == Added(old(obj.annotations), DrainStarted, message)
    ensures Sets(old(obj.annotations), obj.annotations, DrainStarted, message)
  {
    if DrainStarted in obj.annotations {
      return;
    }
    obj.annotations := obj.annotations[DrainStarted := message];
  }

  method Acknowledge(obj: Object, now: string)
    modifies obj
    ensures obj.annotations == Added(old(obj.annotations), DrainAcknowledged, now)
    ensures Sets(old(obj.annotations), obj.annotations, DrainAcknowledged, now)
  {
    if DrainAcknowledged in obj.annotations {
      return;
    }
    obj.annotations := obj.annotations[DrainAcknowledged := now];
  }

  method Unacknowledge(obj: Object)
    modifies obj
    ensures obj.annotations == old(obj.annotations) - {DrainAcknowledged}
  {
    obj.annotations := obj.annotations - {DrainAcknowledged};
  }

  method Finish(obj: Object, now: string)
    modifies obj
    ensures obj.annotations == Added(old(obj.annotations), DrainFinished, now)
    ensures Sets(old(obj.annotations), obj.annotations, DrainFinished, now)
  {
    if DrainFinished in obj.annotations {
      return;
    }
    obj.annotations := obj.annotations[DrainFinished := now];
  }

  method Unfinish(obj: Object)
    modifies obj
    ensures obj.annotations == old(obj.annotations) - {DrainFinished}
  {
    obj.annotations := obj.annotations - {DrainFinished};
  }

  datatype State = NotDraining | Draining | Acknowledged | Finished

  /** The state an object's annotations stand for, and whether they are an impossible combination. */
  function GetState(ann: Annotations): (r: (State, bool))
    ensures r.1 <==> IsFinished(ann) && !IsAcknowledged(ann)
    ensures r.0.Finished? <==> IsFinished(ann)
    ensures r.0.Acknowledged? <==> IsAcknowledged(ann) && !IsFinished(ann)
    ensures r.0.Draining? <==> Started(ann) && !IsAcknowledged(ann) && !IsFinished(ann)
  {
    if IsFinished(ann) && IsAcknowledged(ann) then (Finished, false)
    else if IsFinished(ann) && !IsAcknowledged(ann) then (Finished, true)
    else if IsAcknowledged(ann) then (Acknowledged, false)
    else if Started(ann) then (Draining, false)
    else (NotDraining, false)
  }

  /** No drain is under way except ones that the controller has acknowledged. */
  ghost predicate Quiet(drains: map<string, State>)
  {
    forall n | n in drains :: drains[n].NotDraining? || drains[n].Acknowledged?
  }

  ghost function InState(drains: map<string, State>, s: State): set<string>
  {
    set n | n in drains && drains[n] == s
  }

  /** What `StateTransitions` must return, whatever order the map is walked in. */
  ghost function Transitions(drains: map<string, State>): map<string, State>
  {
    if !Quiet(drains) then map n | n in InState(drains, Draining) :: Acknowledged
    else if InState(drains, Acknowledged) == {} then map[]
    else map[Least(InState(drains, Acknowledged)) := Finished]
  }

  /** Exactly the draining names are acknowledged, whatever else is going on; and a name is finished exactly if it is
      the least acknowledged one while nothing is draining or finished. */
  ghost predicate IsAnswer(drains: map<string, State>, transitions: map<string, State>)
  {
    && (forall n :: n in transitions && transitions[n] == Acknowledged <==> n in drains && drains[n] == Draining)
    && (forall n :: n in transitions && transitions[n] == Finished
                    <==> && (forall m | m in drains :: drains[m] != Draining && drains[m] != Finished)
                         && IsLeast(n, InState(drains, Acknowledged)))
    && forall n | n in transitions :: transitions[n] == Acknowledged || transitions[n] == Finished
  }

  lemma TransitionsAnswer(drains: map<string, State>)
    ensures IsAnswer(drains, Transitions(drains))
  {
    forall n
      ensures n in Transitions(drains) && Transitions(drains)[n] == Finished
         <==> (forall m | m in drains :: drains[m] != Draining && drains[m] != Finished)
              && IsLeast(n, InState(drains, Acknowledged))
    {
      if Quiet(drains) && IsLeast(n, InState(drains, Acknowledged)) {
        LeastUnique(n, InState(drains, Acknowledged));
      }
      if n in Transitions(drains) {
        TransitionsSound(drains, n);
      }
    }
  }

  method StateTransitions(drainStates: map<string, State>) returns (transitions: map<string, State>)
    ensures transitions == Transitions(drainStates)
    ensures IsAnswer(drainStates, transitions)
  {
    TransitionsAnswer(drainStates);
    hide IsAnswer;
    transitions := map[];
    var canMarkFinished := true;
    var unseen := drainStates.Keys;
    while unseen != {}
      invariant unseen <= drainStates.Keys
      invariant transitions == map n | n in InState(drainStates, Draining) - unseen :: Acknowledged
      invariant canMarkFinished <==>
                forall n | n in drainStates && n !in unseen :: drainStates[n].NotDraining? || drainStates[n].Acknowledged?
    {
      var name :| name in unseen;
      unseen := unseen - {name};
      match drainStates[name]
      case NotDraining =>
      case Draining =>
        transitions := transitions[name := Acknowledged];
        canMarkFinished := false;
      case Acknowledged =>
      case Finished =>
        canMarkFinished := false;
    }

    if !canMarkFinished {
      assert InState(drainStates, Draining) - {} == InState(drainStates, Draining);
      return;
    }
    assert InState(drainStates, Draining) == {};
    assert transitions == map[];

    var names := SortNames(drainStates.Keys);
    for i := 0 to |names|
      invariant forall k | 0 <= k < i :: !drainStates[names[k]].Acknowledged?
      invariant forall n :: n in names <==> n in drainStates.Keys
    {
      assert names[i] in names;
      if drainStates[names[i]] == Acknowledged {
        transitions := transitions[names[i] := Finished];
        LeastUnique(names[i], InState(drainStates, Acknowledged));
        return;
      }
    }
    assert forall n | n in drainStates :: n in names;
  }

  /** Every proposed change is an acknowledgement of a request, or the finish of the least acknowledged name
      at a moment when nothing is waiting for acknowledgement and nothing is finished. */
  lemma TransitionsSound(drains: map<string, State>, n: string)
    requires n in Transitions(drains)
    ensures n in drains
    ensures Transitions(drains)[n].Acknowledged? <==> drains[n].Draining?
    ensures Transitions(drains)[n].Finished? <==>
            Quiet(drains) && IsLeast(n, InState(drains, Acknowledged))
    ensures Transitions(drains)[n].Acknowledged? || Transitions(drains)[n].Finished?
    ensures Transitions(drains)[n].Finished? ==> Transitions(drains) == map[n := Finished]
  {
    if Quiet(drains) {
      LeastUnique(n, InState(drains, Acknowledged));
    }
  }

  // ------------------------------------------------------------ convergence

  /** One round in which every proposed transition is applied. */
  ghost function Apply(drains: map<string, State>): map<string, State>
  {
    drains + Transitions(drains)
  }

  ghost function Rounds(drains: map<string, State>, n: nat): map<string, State>
  {
    if n == 0 then drains else Apply(Rounds(drains, n - 1))
  }

  ghost function Involved(drains: map<string, State>): set<string>
  {
    set n | n in drains && !drains[n].NotDraining?
  }

  lemma ApplyAcknowledges(drains: map<string, State>)
    requires InState(drains, Finished) == {} && InState(drains, Draining) != {}
    ensures Quiet(Apply(drains))
    ensures InState(Apply(drains), Acknowledged) == Involved(drains)
    ensures Involved(Apply(drains)) == Involved(drains)
  {
    assert forall n | n in drains :: drains[n].Finished? ==> n in InState(drains, Finished);
    assert forall n | n in drains && drains[n].Draining? :: n in InState(drains, Draining);
    assert !Quiet(drains) by {
      var n :| n in InState(drains, Draining);
    }
  }

  lemma ApplyFinishesOne(drains: map<string, State>)
    requires Quiet(drains) && InState(drains, Acknowledged) != {}
    ensures InState(Apply(drains), Finished) == {Least(Involved(drains))}
    ensures Involved(Apply(drains)) == Involved(drains)
    ensures InState(Apply(drains), Draining) == {}
  {
    assert Involved(drains) == InState(drains, Acknowledged);
  }

  lemma ApplyStays(drains: map<string, State>)
    requires InState(drains, Finished) != {} && InState(drains, Draining) == {}
    ensures Apply(drains) == drains
  {
    assert !Quiet(drains) by {
      var n :| n in InState(drains, Finished);
    }
  }

  /** After one round no request is left without an acknowledgement, and nobody's drain was forgotten, whatever was
      finished before. */
  lemma RoundAcknowledgesAll(drains: map<string, State>)
    ensures InState(Apply(drains), Draining) == {}
    ensures Involved(Apply(drains)) == Involved(drains)
    ensures InState(drains, Draining) != {} ==>
              InState(Apply(drains), Acknowledged) == InState(drains, Acknowledged) + InState(drains, Draining)
  {
    TransitionsAnswer(drains);
    hide Transitions;
    assert InState(drains, Draining) != {} ==> exists n :: n in drains && drains[n] == Draining;
  }

  lemma ApplyKeepsFinished(drains: map<string, State>)
    requires InState(drains, Finished) != {}
    ensures InState(Apply(drains), Finished) == InState(drains, Finished)
    ensures Involved(Apply(drains)) == Involved(drains)
  {
    assert !Quiet(drains) by {
      var f :| f in InState(drains, Finished);
    }
    hide Quiet;
    assert forall n | n in drains :: Apply(drains)[n] == if drains[n].Draining? then Acknowledged else drains[n];
  }

  /** A finished drain is never undone by a round, and no second one is finished beside it. */
  lemma {:induction false} FinishedForGood(drains: map<string, State>, n: nat)
    requires InState(drains, Finished) != {}
    ensures InState(Rounds(drains, n), Finished) == InState(drains, Finished)
    ensures Involved(Rounds(drains, n)) == Involved(drains)
  {
    hide InState, Involved, Apply;
    if n > 0 {
      FinishedForGood(drains, n - 1);
      ApplyKeepsFinished(Rounds(drains, n - 1));
    }
  }

  lemma NothingDrains(drains: map<string, State>)
    requires InState(drains, Finished) == {} && InState(drains, Draining) == {}
    ensures Quiet(drains) && Involved(drains) == InState(drains, Acknowledged)
  {
    forall n | n in drains
      ensures drains[n].NotDraining? || drains[n].Acknowledged?
    {
      assert n !in InState(drains, Finished) && n !in InState(drains, Draining);
    }
  }

  lemma SettledAfterTwo(drains: map<string, State>)
    requires Involved(drains) != {} && InState(drains, Finished) == {}
    ensures InState(Apply(Apply(drains)), Finished) == {Least(Involved(drains))}
    ensures InState(Apply(Apply(drains)), Draining) == {}
  {
    hide InState, Involved, Apply, Least, Quiet;
    if InState(drains, Draining) != {} {
      ApplyAcknowledges(drains);
      ApplyFinishesOne(Apply(drains));
    } else {
      NothingDrains(drains);
      ApplyFinishesOne(drains);
      ApplyStays(Apply(drains));
    }
  }

  /** From any drain set in which something drains and nothing is finished, exactly one name, the least one
      involved, is finished after at most two rounds, and from then on nothing changes. */
  lemma {:induction false} Converges(drains: map<string, State>, n: nat)
    requires Involved(drains) != {} && InState(drains, Finished) == {}
    requires n >= 2
    ensures InState(Rounds(drains, n), Finished) == {Least(Involved(drains))}
    ensures InState(Rounds(drains, n), Draining) == {}
    ensures Rounds(drains, n) == Rounds(drains, 2)
  {
    hide InState, Involved, Apply, Least;
    if n > 2 {
      Converges(drains, n - 1);
      ApplyStays(Rounds(drains, n - 1));
    } else {
      assert Rounds(drains, 1) == Apply(Rounds(drains, 0));
      SettledAfterTwo(drains);
    }
  }
}
