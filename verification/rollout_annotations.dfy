/** Package rollout: the annotations that separate deciding what to change from deciding when. */
module RolloutAnnotations {
  import opened Annotations

  predicate Scheduled(ann: Annotations) { RolloutScheduled in ann }

  predicate Released(ann: Annotations) { RolloutReleased in ann }

  function WithSchedule(ann: Annotations, message: string): Annotations
  {
    ann[RolloutScheduled := message]
  }

  function WithoutSchedule(ann: Annotations): Annotations
  {
    ann - {RolloutScheduled, RolloutReleased}
  }

  function WithRelease(ann: Annotations): Annotations
  {
    if Released(ann) then ann else ann[RolloutReleased := ""]
  }

  method Schedule(obj: Object, message: string)
    modifies obj
    ensures obj.annotations == old(obj.annotations)[RolloutScheduled := message]
    ensures obj.annotations == WithSchedule(old(obj.annotations), message)
  {
    obj.annotations := obj.annotations[RolloutScheduled := message];
  }

  method Unschedule(obj: Object)
    modifies obj
    ensures obj.annotations == old(obj.annotations) - {RolloutScheduled, RolloutReleased}
    ensures obj.annotations == WithoutSchedule(old(obj.annotations))
  {
    obj.annotations := obj.annotations - {RolloutScheduled};
    obj.annotations := obj.annotations - {RolloutReleased};
  }

  method Release(obj: Object)
    modifies obj
    ensures obj.annotations.Keys == old(obj.annotations).Keys + {RolloutReleased}
    ensures forall k | k in old(obj.annotations) :: obj.annotations[k] == old(obj.annotations)[k]
    ensures obj.annotations == WithRelease(old(obj.annotations))
  {
    if RolloutReleased in obj.annotations {
      return;
    }
    obj.annotations := obj.annotations[RolloutReleased := ""];
  }

  method Uncascade(obj: Object)
    modifies obj
    ensures obj.annotations == old(obj.annotations) - {RolloutCascade}
  {
    obj.annotations := obj.annotations - {RolloutCascade};
  }
}
