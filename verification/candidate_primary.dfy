/** The choice of a new primary for a planned reparent, and what it means for the drain of the old one. */
module CandidatePrimary {
  import opened Annotations
  import opened Drain
  import opened Election
  import opened ReconcileDrain
  import opened Wrappers

  const EXTERNAL_MASTER_POOL := "externalmaster"

  datatype TabletPod = TabletPod(annotations: Annotations, poolType: string, ready: bool)

  /** What a candidate answers when it is asked for its replication position, if it answers. */
  datatype Answer = Silent | At(position: Position)

  /** The inputs: tablet records and Pods by alias, the alias of the current primary, and the answers. */
  datatype Shard = Shard(tablets: map<string, TabletType>, pods: map<string, TabletPod>, primary: string,
                         usingExternal: bool, answers: map<string, Answer>)

  predicate IsCandidate(s: Shard, a: string)
  {
    && a in s.tablets && a != s.primary && a in s.pods && s.pods[a].ready
    && (if s.usingExternal then s.pods[a].poolType == EXTERNAL_MASTER_POOL && (s.tablets[a].Spare? || s.tablets[a].Primary?)
        else s.tablets[a].Replica?)
    && !Started(s.pods[a].annotations) && !IsAcknowledged(s.pods[a].annotations) && !IsFinished(s.pods[a].annotations)
  }

  predicate Answered(s: Shard, a: string)
  {
    IsCandidate(s, a) && a in s.answers && s.answers[a].At?
  }

  ghost predicate ComparableAnswers(s: Shard)
  {
    forall a, b | Answered(s, a) && Answered(s, b) ::
      AtLeast(s.answers[a].position, s.answers[b].position) || AtLeast(s.answers[b].position, s.answers[a].position)
  }

  /** The loop over the tablet records, in any order. */
  method Candidates(s: Shard) returns (candidates: seq<string>)
    ensures forall a :: a in candidates <==> IsCandidate(s, a)
  {
    candidates := [];
    var todo := s.tablets.Keys;
    while todo != {}
      invariant todo <= s.tablets.Keys
      invariant forall a :: a in candidates <==> IsCandidate(s, a) && a !in todo
    {
      var a :| a in todo;
      todo := todo - {a};
      if a == s.primary || a !in s.pods {
        continue;
      }
      var pod := s.pods[a];
      if s.usingExternal {
        if pod.poolType != EXTERNAL_MASTER_POOL {
          continue;
        }
        if s.tablets[a] != Spare && s.tablets[a] != Primary {
          continue;
        }
      } else if s.tablets[a] != Replica {
        continue;
      }
      if !pod.ready {
        continue;
      }
      if Started(pod.annotations) || IsAcknowledged(pod.annotations) || IsFinished(pod.annotations) {
        continue;
      }
      candidates := candidates + [a];
    }
  }

  /** `best` is farthest ahead among the answers that have been read, if these can be compared. */
  ghost predicate Best(s: Shard, unread: set<string>, best: Option<string>, highest: Position)
  {
    && (best.None? <==> forall a | Answered(s, a) :: a in unread)
    && (best.None? ==> highest == {})
    && (best.Some? ==> Answered(s, best.value) && highest == s.answers[best.value].position)
    && (best.Some? && ComparableAnswers(s) ==>
          forall a | Answered(s, a) && a !in unread :: AtLeast(highest, s.answers[a].position))
  }

  /** The answers arrive in any order; a position without any transactions counts as none. */
  method Choose(s: Shard) returns (newPrimary: Option<string>)
    ensures newPrimary.None? <==> forall a :: !IsCandidate(s, a)
    ensures newPrimary.Some? ==> IsCandidate(s, newPrimary.value)
    ensures newPrimary.Some? ==>
              && newPrimary.value in s.tablets && newPrimary.value != s.primary && newPrimary.value in s.pods
              && var pod, t := s.pods[newPrimary.value], s.tablets[newPrimary.value];
              && pod.ready && pod.annotations.Keys !! {DrainStarted, DrainAcknowledged, DrainFinished}
              && (s.usingExternal ==> pod.poolType == "externalmaster" && (t == Spare || t == Primary))
              && (!s.usingExternal ==> t == Replica)
    ensures newPrimary.None? ==>
              forall a | a in s.tablets && a != s.primary && a in s.pods && s.pods[a].ready
                         && s.pods[a].annotations.Keys !! {DrainStarted, DrainAcknowledged, DrainFinished} ::
                && (s.usingExternal ==> s.pods[a].poolType != "externalmaster" || s.tablets[a] !in {Spare, Primary})
                && (!s.usingExternal ==> s.tablets[a] != Replica)
    ensures newPrimary.Some? && (exists a :: Answered(s, a)) ==>
              && Answered(s, newPrimary.value)
              && (ComparableAnswers(s) ==>
                    forall a | Answered(s, a) ::
                      AtLeast(s.answers[newPrimary.value].position, s.answers[a].position))
  {
    var candidates := Candidates(s);
    if |candidates| == 0 {
      forall a | a in s.tablets && a != s.primary && a in s.pods && s.pods[a].ready
                 && s.pods[a].annotations.Keys !! {DrainStarted, DrainAcknowledged, DrainFinished}
        ensures s.usingExternal ==> s.pods[a].poolType != "externalmaster" || s.tablets[a] !in {Spare, Primary}
        ensures !s.usingExternal ==> s.tablets[a] != Replica
      {
        assert !IsCandidate(s, a);
      }
      return None;
    }
    assert candidates[0] in candidates && IsCandidate(s, candidates[0]);
    var bestCandidate: Option<string>, highestPosition: Position := None, {};
    var unread := set a | a in candidates;
    while unread != {}
      invariant forall a | a in unread :: IsCandidate(s, a)
      invariant Best(s, unread, bestCandidate, highestPosition)
      decreases |unread|
    {
      var a :| a in unread;
      unread := unread - {a};
      if !Answered(s, a) {
        continue;
      }
      if highestPosition == {} || !AtLeast(highestPosition, s.answers[a].position) {
        bestCandidate := Some(a);
        highestPosition := s.answers[a].position;
      }
    }
    if bestCandidate.None? {
      return Some(candidates[0]);
    }
    return bestCandidate;
  }

  ghost function AnnotationsOf(s: Shard): Pods
  {
    map a | a in s.pods :: s.pods[a].annotations
  }

  /** A reparent away from a draining primary ends in a tablet that is not draining. So the next pass, on the same
      Pods, looks for no other primary, and marks the old primary finished if it was the first in line. */
  lemma ReparentUnblocksFinish(s: Shard, newPrimary: string)
    requires WantsReparent(AnnotationsOf(s), s.primary) && IsCandidate(s, newPrimary)
    ensures !WantsReparent(AnnotationsOf(s), newPrimary)
    ensures Drains(AnnotationsOf(s))[s.primary].Finished?
            || Plan(AnnotationsOf(s), newPrimary) == map[s.primary := Finished]
  {
    var pods := AnnotationsOf(s);
    assert newPrimary !in Drains(pods);
    if !Drains(pods)[s.primary].Finished? {
      ReparentOnlyWhenSettled(pods, s.primary);
      TransitionsSound(Drains(pods), s.primary);
      assert Transitions(Drains(pods)) == map[s.primary := Finished];
    }
  }
}
