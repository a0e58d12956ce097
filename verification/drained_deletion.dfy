/** The reconciler's deletions of tablet Pods, on top of the drain protocol. */
module DrainedDeletion {
  import opened Annotations
  import opened Drain
  import opened Reconciler
  import opened DrainProtocol
  import opened Wrappers

  const TURNING_DOWN := "turning down unwanted tablet"

  /** The turndown guard for tablet Pods; `safe` says that the tablet is known not to be the primary, and that
      all desired tablets are ready. */
  function TabletTurndown(o: Obj, safe: bool): Turndown
  {
    if !IsFinished(o.annotations) then
      Blocked(o.(annotations := Added(o.annotations, DrainStarted, TURNING_DOWN)))
    else if !safe then Blocked(o)
    else Proceed
  }

  /** The strategy for tablet Pods: no hook that recreates at once, and the guard above. */
  ghost predicate ForTablets(s: Strategy, safe: bool)
  {
    && (forall b :: s.updateRecreate(b) == b)
    && (forall o :: s.prepareForTurndown(o) == TabletTurndown(o, safe))
  }

  /** Whether a call that reads the copy `o` decides to delete it. */
  ghost predicate DecidesToDelete(o: Obj, wanted: bool, s: Strategy)
  {
    Delete in Decide(Some(o), wanted, s).0
  }

  /** A tablet Pod is deleted only if the copy that the decision is based on is marked finished; except for
      evicted Pods, and wanted Pods that do not support drains. */
  lemma DeletesOnlyDrained(o: Obj, wanted: bool, s: Strategy, safe: bool)
    requires ForTablets(s, safe) && DecidesToDelete(o, wanted, s)
    ensures o.evicted || IsFinished(o.annotations) || (wanted && !s.supportsDrain(o.body))
    ensures !wanted && !o.evicted ==> safe && o.labelsMatch
  {
  }

  /** Conversely, a wanted, released Pod of ours that has to be recreated is deleted as soon as it is drained. */
  lemma DrainedIsDeleted(o: Obj, s: Strategy, safe: bool)
    requires ForTablets(s, safe) && o.labelsMatch && !o.deleting && !o.evicted && s.supportsDrain(o.body)
    requires RolloutReleased in o.annotations
    requires var rolled := s.updateRollingInPlace(s.updateInPlace(o.body)); s.updateRollingRecreate(rolled) != rolled
    ensures DecidesToDelete(o, true, s) <==> IsFinished(o.annotations)
  {
    assert IsFinished(o.annotations) ==> Decide(Some(o), true, s).0 == [Delete];
  }

  /** An unwanted tablet Pod of ours that is not drained gets a drain request and stays; once it is drained, it is
      deleted exactly if that is known to be safe, and otherwise left as it is. */
  lemma TurndownDrainsFirst(o: Obj, s: Strategy, safe: bool)
    requires ForTablets(s, safe) && o.labelsMatch && !o.deleting && !o.evicted && o.controller.Us?
    ensures DrainFinished in o.annotations ==> Decide(Some(o), false, s) == (if safe then [Delete] else [], false)
    ensures DrainFinished !in o.annotations ==>
              && Decide(Some(o), false, s) == (if DrainStarted in o.annotations then []
                                               else [Update(o.(annotations := o.annotations[DrainStarted :=
                                                                                "turning down unwanted tablet"]))], false)
  {
    assert DrainStarted !in o.annotations ==> o.annotations[DrainStarted := TURNING_DOWN] != o.annotations;
  }

  /** `o` is a copy of the Pod `p` as it was in state `t`. */
  ghost predicate CopyOf(o: Obj, h: seq<Cluster>, t: nat, p: string)
  {
    t < |h| && p in h[t] && o.annotations == h[t][p].annotations
  }

  /** A deletion decided on a copy from state `t` carries that Pod's UID, and so can still hit it now. */
  ghost predicate StillHits(s: System, t: nat, p: string)
    requires s.WellFormed()
  {
    t < |s.history| && p in s.history[t] && p in s.Current() && s.Current()[p].uid == s.history[t][p].uid
  }

  /** In every run of the drain protocol, whatever copies the reconciler reads, however old: all the deletions of
      drain-supporting tablets that can take effect at one moment hit the same tablet. */
  lemma OneDeletionAtATime(states: seq<System>, steps: seq<DrainProtocol.Step>, i: nat,
                           t: nat, p: string, o: Obj, wanted: bool, s: Strategy, safe: bool,
                           t': nat, p': string, o': Obj, wanted': bool, s': Strategy, safe': bool)
    requires Run(states, steps) && i < |states| && states[i].WellFormed()
    requires CopyOf(o, states[i].history, t, p) && StillHits(states[i], t, p)
    requires CopyOf(o', states[i].history, t', p') && StillHits(states[i], t', p')
    requires ForTablets(s, safe) && DecidesToDelete(o, wanted, s) && !o.evicted && s.supportsDrain(o.body)
    requires ForTablets(s', safe') && DecidesToDelete(o', wanted', s') && !o'.evicted && s'.supportsDrain(o'.body)
    ensures p == p'
  {
    DeletesOnlyDrained(o, wanted, s, safe);
    DeletesOnlyDrained(o', wanted', s', safe');
    hide Run;
    OneDeletableTablet(states, steps, i, t, t', p, p');
  }

  // ------------------------------------------------------------ the reconciler as one of the others

  /** What the reconciler may do to the drain annotations of a Pod that it updates: request a drain. */
  ghost predicate OnlyRequests(before: Annotations, after: Annotations)
  {
    && (Started(before) ==> Started(after))
    && (IsAcknowledged(after) <==> IsAcknowledged(before))
    && (IsFinished(after) <==> IsFinished(before))
  }

  /** Whatever the reconciler decides to write for a tablet Pod, it never touches the marks of the drain controller,
      and takes no drain request back. */
  lemma WritesOnlyRequests(cached: Option<Obj>, wanted: bool, s: Strategy, safe: bool, w: Write)
    requires ForTablets(s, safe) && w in Decide(cached, wanted, s).0
    ensures w.Update? ==> cached.Some? && OnlyRequests(cached.value.annotations, w.obj.annotations)
    ensures w.Create? ==> !IsAcknowledged(w.obj.annotations) && !IsFinished(w.obj.annotations)
  {
  }

  /** The API server accepts the write: a Pod is created only where there is none, updated only if it was not written
      since it was read, as `pod`, and deleted only if it is still the same one. */
  ghost predicate Accepted(c: Cluster, c': Cluster, rev: nat, p: string, pod: DrainProtocol.Pod, w: Write)
  {
    && OnlyChanges(c, c', p)
    && match w
       case Delete => p in c && c[p].uid == pod.uid && p !in c'
       case Create(o) => p !in c && p in c' && c'[p] == DrainProtocol.Pod(rev, rev, o.annotations)
       case Update(o) => p in c && c[p] == pod && p in c' && c'[p] == DrainProtocol.Pod(pod.uid, rev, o.annotations)
  }

  /** So every accepted write of the reconciler is a step that the drain protocol allows to everyone. */
  lemma ReconcilerKeepsToTheProtocol(c: Cluster, c': Cluster, rev: nat, p: string, pod: DrainProtocol.Pod,
                                     cached: Option<Obj>, wanted: bool, s: Strategy, safe: bool, w: Write)
    requires ForTablets(s, safe) && w in Decide(cached, wanted, s).0
    requires cached.Some? ==> cached.value.annotations == pod.annotations
    requires Accepted(c, c', rev, p, pod, w)
    ensures ForeignWrite(c, c', rev, p)
  {
    WritesOnlyRequests(cached, wanted, s, safe, w);
  }
}
